/** Two batches mined together: while one context evaluates, the other batch is sampled from a
    private copy of its logits. */
module DoubleBuffer {
  import opened Llama
  import opened Decoding
  import opened Stepwise

  /** A context whose decodes are issued first and take effect when the host next synchronises. */
  class Pipe<L(!new)> {
    const ctx: Context<L>
    var pending: Option<seq<Row>>

    constructor (ctx: Context<L>)
      ensures this.ctx == ctx && pending == None
    {
      this.ctx := ctx;
      pending := None;
    }

    method Issue(batch: seq<Row>) returns (ok: bool)
      requires pending.None?
      modifies this
      ensures ok <==> Consecutive(ctx.kv, batch)
      ensures pending == if ok then Some(batch) else None
    {
      ok := Consecutive(ctx.kv, batch);
      if ok { pending := Some(batch); }
    }

    /** What was issued fits the cache. */
    ghost predicate Valid() reads this, ctx { pending.Some? ==> Consecutive(ctx.kv, pending.value) }

    /** Empties the cache. A decode still in flight ends first; nothing of it stays in the cache. */
    method Clear()
      requires Valid()
      modifies this, ctx
      ensures pending == None && ctx.kv == seq(|old(ctx.kv)|, _ => []) && ctx.skipCopy == old(ctx.skipCopy)
    {
      Synchronize();
      ctx.Clear();
    }

    /** Waits for the decode under way, if any. */
    method Synchronize()
      requires pending.Some? ==> Consecutive(ctx.kv, pending.value)
      modifies this, ctx
      ensures pending == None && ctx.skipCopy == old(ctx.skipCopy) && |ctx.kv| == |old(ctx.kv)|
      ensures old(pending).None? ==> unchanged(ctx)
      ensures old(pending).Some? ==> ctx.kv == After(old(ctx.kv), old(pending).value)
                                     && ctx.device == OutputRows(ctx.net, old(ctx.kv), old(pending).value)
    {
      if pending.Some? {
        var ok := ctx.Decode(pending.value);
        assert ok;
        pending := None;
      }
    }
  }

  /** A batch between two decodes: the cache lags the contexts by the tokens just chosen. */
  ghost predicate Lagging(kv: seq<seq<int>>, prev: seq<seq<int>>, tok: seq<int>, ctxv: seq<seq<int>>,
                          toks: seq<seq<int>>, i: nat) {
    Holds(kv, prev) && Grown(toks, prev, i) && |tok| == |toks| && ctxv == Push(prev, tok)
  }

  lemma LagParts(kv: seq<seq<int>>, prev: seq<seq<int>>, tok: seq<int>, ctxv: seq<seq<int>>, toks: seq<seq<int>>, i: nat)
    requires Lagging(kv, prev, tok, ctxv, toks, i)
    ensures Holds(kv, prev) && Grown(toks, prev, i) && |tok| == |toks|
  {
  }

  ghost predicate Batches(toksA: seq<seq<int>>, toksB: seq<seq<int>>, slots: nat) {
    1 <= |toksA| <= slots && |toksB| == |toksA| && Prompts(toksA) && Prompts(toksB)
  }

  method ValidateBoth(toksA: seq<seq<int>>, toksB: seq<seq<int>>, slots: nat) returns (valid: bool)
    ensures valid <==> Batches(toksA, toksB, slots)
  {
    if |toksA| < 1 || |toksA| > slots || |toksB| != |toksA| { return false; }
    for s := 0 to |toksA|
      invariant forall t :: 0 <= t < s ==> |toksA[t]| > 0 && |toksB[t]| > 0
    {
      if |toksA[s]| == 0 || |toksB[s]| == 0 { return false; }
    }
    return true;
  }

  /** How a window ends: the sampler's state and the contexts, or the step of the refusal. */
  datatype Goal<S> = Goal(outcome: (S, Option<seq<seq<int>>>), refusal: Option<(nat, bool)>)

  ghost function GoalOf<S, L>(net: seq<int> -> L, step: Sampler<S, L>, st: S, ctxv: seq<seq<int>>, left: nat,
                              done: nat): Goal<S> {
    Goal(Generate(net, step, st, ctxv, left), Refusal(net, step, st, ctxv, left, done))
  }

  /** After `done` steps, `left` further ones end in `goal`. */
  ghost predicate Reaches<S, L>(net: seq<int> -> L, step: Sampler<S, L>, st: S, ctxv: seq<seq<int>>, left: nat,
                                done: nat, goal: Goal<S>) {
    GoalOf(net, step, st, ctxv, left, done) == goal
  }

  ghost predicate StopsAt<S>(goal: Goal<S>, st: S, done: nat) {
    goal.outcome == (st, None) && goal.refusal.Some? && goal.refusal.value.0 == done
  }

  /** One prompt pass and the first sample, from the host copy. */
  method PromptAndStep0<S, L(!new)>(ctx: Context<L>, toks: seq<seq<int>>, step: Sampler<S, L>, st0: S, ghost n: nat,
                                    ghost done: nat, ghost goal: Goal<S>)
    returns (ok: bool, st: S, ctxv: seq<seq<int>>, tok: seq<int>)
    requires Prompts(toks) && |toks| <= |ctx.kv| && ctx.kv == seq(|ctx.kv|, _ => []) && !ctx.skipCopy
    requires n > 0 && done == 0 && Reaches(ctx.net, step, st0, toks, n, done, goal)
    modifies ctx
    ensures |ctx.kv| == |old(ctx.kv)| && !ctx.skipCopy
    ensures ok ==> Lagging(ctx.kv, toks, tok, ctxv, toks, 0)
    ensures if ok then Reaches(ctx.net, step, st, ctxv, n - 1, 1, goal) else StopsAt(goal, st, 0)
  {
    var decoded, lastRow := PromptPlain(ctx, toks);
    assert decoded;
    var host := ctx.host;
    var all := seq(|toks|, s requires 0 <= s < |toks| && lastRow[s] < |host| && host[lastRow[s]].Some? => host[lastRow[s]].value);
    assert all == Logits(ctx.net, toks);
    ok, st, ctxv, tok := Sample(ctx.net, toks, all, step, st0, n, 0, goal);
  }

  /** Samples every stream of a batch and appends the tokens, or reports the refusal. */
  method Sample<S, L(!new)>(ghost net: seq<int> -> L, ctxv: seq<seq<int>>, logits: seq<L>, step: Sampler<S, L>, st0: S,
                            ghost n: nat,
                            ghost done: nat, ghost goal: Goal<S>)
    returns (ok: bool, st: S, next: seq<seq<int>>, tok: seq<int>)
    requires logits == Logits(net, ctxv) && n > 0 && Reaches(net, step, st0, ctxv, n, done, goal)
    ensures ok ==> |tok| == |ctxv| && next == Push(ctxv, tok)
    ensures if ok then Reaches(net, step, st, next, n - 1, done + 1, goal) else StopsAt(goal, st, done)
  {
    var r := step(st0, logits, ctxv);
    st, next, tok := r.0, ctxv, [];
    if r.1.None? { return false, st, next, tok; }
    tok := r.1.value;
    ok := Accepted(r.1, |ctxv|);
    if ok { next := Push(ctxv, tok); }
  }

  /** The decode in flight is that of the tokens by which the cache lags. */
  ghost predicate UnderWay<L(!new)>(pipe: Pipe<L>, prev: seq<seq<int>>, tok: seq<int>)
    reads pipe, pipe.ctx
  {
    pipe.pending == Some(PendingRows(prev, tok)) && Consecutive(pipe.ctx.kv, pipe.pending.value)
  }

  function PendingRows(prev: seq<seq<int>>, tok: seq<int>): seq<Row> {
    if |tok| == |prev| then StepRows(prev, tok, |prev|) else []
  }

  /** Issues the decode of a batch's current tokens. */
  method IssueDecode<L(!new)>(pipe: Pipe<L>, tok: seq<int>, i: nat, toks: seq<seq<int>>, ghost prev: seq<seq<int>>)
    returns (ok: bool)
    requires pipe.pending.None? && Holds(pipe.ctx.kv, prev) && Grown(toks, prev, i) && |tok| == |toks|
    modifies pipe
    ensures ok && UnderWay(pipe, prev, tok) && pipe.pending.Some? && pipe.Valid()
  {
    var nb := StepBatchOf(toks, tok, i, prev);
    StepDecoded(pipe.ctx.net, pipe.ctx.kv, prev, tok);
    ok := pipe.Issue(nb);
  }

  /** Waits for the batch's decode and copies its logits into private buffer `which`. */
  method SyncAndCopy<L(!new)>(pipe: Pipe<L>, dbuf: array<seq<L>>, which: nat, ghost prev: seq<seq<int>>, ghost tok: seq<int>)
    requires which < dbuf.Length && Holds(pipe.ctx.kv, prev) && |tok| == |prev|
    requires UnderWay(pipe, prev, tok)
    modifies pipe, pipe.ctx, dbuf
    ensures pipe.pending == None && Holds(pipe.ctx.kv, Push(prev, tok)) && |pipe.ctx.kv| == |old(pipe.ctx.kv)|
    ensures dbuf[which] == Logits(pipe.ctx.net, Push(prev, tok))
    ensures forall j :: 0 <= j < dbuf.Length && j != which ==> dbuf[j] == old(dbuf[j])
  {
    StepDecoded(pipe.ctx.net, pipe.ctx.kv, prev, tok);
    pipe.Synchronize();
    dbuf[which] := pipe.ctx.device;
  }

  function AtLeastOne(n: nat): nat { if n == 0 then 1 else n }

  lemma StartAndEnd<S, L>(net: seq<int> -> L, step: Sampler<S, L>, st: S, ctxv: seq<seq<int>>, n: nat, done: nat)
    ensures Reaches(net, step, st, ctxv, n, 0, GoalOf(net, step, st, ctxv, n, 0))
    ensures forall goal :: Reaches(net, step, st, ctxv, 0, done, goal) ==> goal == Goal((st, Some(ctxv)), None)
  {
  }

  /** A batch still under way is not refused before the steps it has done. */
  lemma NotYet<S, L>(net: seq<int> -> L, step: Sampler<S, L>, st: S, ctxv: seq<seq<int>>, left: nat, done: nat, goal: Goal<S>)
    requires Reaches(net, step, st, ctxv, left, done, goal)
    ensures goal.refusal.Some? ==> goal.refusal.value.0 >= done
    ensures goal.outcome.1.Some? <==> goal.refusal.None?
  {
    WindowShape(net, step, st, ctxv, left, done);
  }

  /** Batch A is the first to be refused; at equal steps it is sampled first. */
  ghost predicate AStops(a: Option<(nat, bool)>, b: Option<(nat, bool)>) {
    a.Some? && (b.None? || a.value.0 <= b.value.0)
  }

  /** The decode left in flight: that of the batch not refused, once generation has begun. */
  ghost predicate LeftInFlight<L(!new)>(a: Option<(nat, bool)>, b: Option<(nat, bool)>, pa: Pipe<L>, pb: Pipe<L>)
    reads pa, pb
  {
    (pb.pending.Some? <==> AStops(a, b) && a.value.0 > 0)
    && (pa.pending.Some? <==> !AStops(a, b) && b.Some? && b.value.0 > 0)
  }

  /** Both windows complete exactly when each does alone, with the same tokens and sampler states. */
  ghost predicate Outcome<S, T>(a: (S, Option<seq<seq<int>>>), b: (T, Option<seq<seq<int>>>), sa: S, sb: T,
                                result: Option<(seq<seq<int>>, seq<seq<int>>)>) {
    (result.Some? <==> a.1.Some? && b.1.Some?)
    && (result.Some? ==> sa == a.0 && sb == b.0 && result.value == (a.1.value, b.1.value))
  }

  /** One half of a round: wait for batch X, copy its logits out, start batch Y's decode and only
      then sample X. */
  method Turn<S, L(!new)>(px: Pipe<L>, py: Pipe<L>, dbuf: array<seq<L>>, which: nat,
                          ghost prevX: seq<seq<int>>, tokX: seq<int>, ctxX: seq<seq<int>>, ghost toksX: seq<seq<int>>,
                          ghost iX: nat,
                          ghost prevY: seq<seq<int>>, tokY: seq<int>, ghost ctxY: seq<seq<int>>, toksY: seq<seq<int>>, iY: nat,
                          step: Sampler<S, L>, st0: S, ghost n: nat, ghost done: nat, ghost goal: Goal<S>)
    returns (ok: bool, st: S, next: seq<seq<int>>, tok: seq<int>)
    requires px.ctx != py.ctx && px != py && which < dbuf.Length
    requires Lagging(px.ctx.kv, prevX, tokX, ctxX, toksX, iX) && UnderWay(px, prevX, tokX)
    requires Lagging(py.ctx.kv, prevY, tokY, ctxY, toksY, iY) && py.pending.None?
    requires n > 0 && Reaches(px.ctx.net, step, st0, ctxX, n, done, goal)
    modifies px, px.ctx, py, dbuf
    ensures px.pending == None && Holds(px.ctx.kv, ctxX) && Grown(toksX, ctxX, iX + 1) && |px.ctx.kv| == |old(px.ctx.kv)|
    ensures UnderWay(py, prevY, tokY) && py.pending.Some? && py.Valid()
    ensures ok ==> Lagging(px.ctx.kv, ctxX, tok, next, toksX, iX + 1)
    ensures if ok then Reaches(px.ctx.net, step, st, next, n - 1, done + 1, goal) else StopsAt(goal, st, done)
  {
    hide After, Consecutive, OutputRows, Generate, Refusal, Holds, Reaches;
    SyncAndCopy(px, dbuf, which, prevX, tokX);
    ok := IssueDecode(py, tokY, iY, toksY, prevY);
    ok, st, next, tok := Sample(px.ctx.net, ctxX, dbuf[which], step, st0, n, done, goal);
  }

  /** The generation steps: each batch is sampled from its private copy while the other's decode
      is under way. The last decode of batch A is waste. */
  method Alternate<S, T, L(!new)>(pa: Pipe<L>, pb: Pipe<L>, dbuf: array<seq<L>>, window: nat,
                                  toksA: seq<seq<int>>, toksB: seq<seq<int>>, stepA: Sampler<S, L>,
                                  stepB: Sampler<T, L>, sa0: S, sb0: T,
                                  firstA: seq<seq<int>>, firstB: seq<seq<int>>, tokA0: seq<int>, tokB0: seq<int>,
                                  ghost goalA: Goal<S>, ghost goalB: Goal<T>)
    returns (ok: bool, sa: S, sb: T, ctxA: seq<seq<int>>, ctxB: seq<seq<int>>)
    requires pa.ctx != pb.ctx && pa != pb && dbuf.Length == 2 && pa.pending.None? && pb.pending.None?
    requires Lagging(pa.ctx.kv, toksA, tokA0, firstA, toksA, 0) && Lagging(pb.ctx.kv, toksB, tokB0, firstB, toksB, 0)
    requires Reaches(pa.ctx.net, stepA, sa0, firstA, AtLeastOne(window) - 1, 1, goalA)
    requires Reaches(pb.ctx.net, stepB, sb0, firstB, AtLeastOne(window) - 1, 1, goalB)
    modifies pa, pb, pa.ctx, pb.ctx, dbuf
    ensures |pa.ctx.kv| == |old(pa.ctx.kv)| && |pb.ctx.kv| == |old(pb.ctx.kv)| && pa.Valid() && pb.Valid()
    ensures ok ==> goalA == Goal((sa, Some(ctxA)), None) && goalB == Goal((sb, Some(ctxB)), None)
    ensures !ok ==> goalA.outcome.1.None? || goalB.outcome.1.None?
    ensures LeftInFlight(goalA.refusal, goalB.refusal, pa, pb)
  {
    hide After, Consecutive, OutputRows, Generate, Refusal, Holds, Reaches, Lagging, UnderWay;
    LagParts(pa.ctx.kv, toksA, tokA0, firstA, toksA, 0);
    sa, sb, ctxA, ctxB := sa0, sb0, firstA, firstB;
    var tokA, tokB := tokA0, tokB0;
    ghost var prevA, prevB, n := toksA, toksB, AtLeastOne(window);
    ok := IssueDecode(pa, tokA, 0, toksA, prevA);
    var i := 1;
    while i < window
      invariant 1 <= i <= AtLeastOne(window) && ok
      invariant Lagging(pa.ctx.kv, prevA, tokA, ctxA, toksA, i - 1) && Lagging(pb.ctx.kv, prevB, tokB, ctxB, toksB, i - 1)
      invariant |pa.ctx.kv| == |old(pa.ctx.kv)| && |pb.ctx.kv| == |old(pb.ctx.kv)|
      invariant UnderWay(pa, prevA, tokA) && pa.Valid() && pb.pending == None
      invariant Reaches(pa.ctx.net, stepA, sa, ctxA, n - i, i, goalA)
      invariant Reaches(pb.ctx.net, stepB, sb, ctxB, n - i, i, goalB)
    {
      ghost var sampledA, sampledB := ctxA, ctxB;
      ok, sa, ctxA, tokA := Turn(pa, pb, dbuf, 0, prevA, tokA, ctxA, toksA, i - 1, prevB, tokB, ctxB, toksB, i - 1,
                                 stepA, sa, n - i, i, goalA);
      if !ok {
        NotYet(pb.ctx.net, stepB, sb, ctxB, n - i, i, goalB);
        return;
      }
      prevA := sampledA;
      ok, sb, ctxB, tokB := Turn(pb, pa, dbuf, 1, prevB, tokB, ctxB, toksB, i - 1, prevA, tokA, ctxA, toksA, i, stepB,
                                 sb, n - i, i, goalB);
      if !ok {
        NotYet(pa.ctx.net, stepA, sa, ctxA, n - i - 1, i + 1, goalA);
        return;
      }
      prevB := sampledB;
      i := i + 1;
    }
    pa.Synchronize();
    pb.Synchronize();
    StartAndEnd(pa.ctx.net, stepA, sa, ctxA, 0, n);
    StartAndEnd(pb.ctx.net, stepB, sb, ctxB, 0, n);
  }

  /** Mines batches A and B together. A window of length 0 still samples one token. */
  method RunDouble<S, T, L(!new)>(pa: Pipe<L>, pb: Pipe<L>, dbuf: array<seq<L>>, cfg: Config,
                                  toksA: seq<seq<int>>, toksB: seq<seq<int>>, stepA: Sampler<S, L>,
                                  stepB: Sampler<T, L>, sa0: S, sb0: T)
    returns (sa: S, sb: T, result: Option<(seq<seq<int>>, seq<seq<int>>)>)
    requires pa.ctx != pb.ctx && pa != pb && dbuf.Length == 2 && |pa.ctx.kv| == |pb.ctx.kv| == cfg.slots
    requires pa.Valid() && pb.Valid()
    modifies pa, pb, pa.ctx, pb.ctx, dbuf
    ensures pa.Valid() && pb.Valid() && |pa.ctx.kv| == |pb.ctx.kv| == cfg.slots
    ensures !Batches(toksA, toksB, cfg.slots) ==> result == None && unchanged(pa, pb, pa.ctx, pb.ctx)
    ensures Batches(toksA, toksB, cfg.slots) ==>
              Outcome(Generate(pa.ctx.net, stepA, sa0, toksA, AtLeastOne(cfg.window)),
                      Generate(pb.ctx.net, stepB, sb0, toksB, AtLeastOne(cfg.window)), sa, sb, result)
              && !pa.ctx.skipCopy && !pb.ctx.skipCopy
    ensures Batches(toksA, toksB, cfg.slots) ==>
              LeftInFlight(Refusal(pa.ctx.net, stepA, sa0, toksA, AtLeastOne(cfg.window), 0),
                           Refusal(pb.ctx.net, stepB, sb0, toksB, AtLeastOne(cfg.window), 0), pa, pb)
  {
    hide After, Consecutive, OutputRows, Generate, Refusal, Holds, Reaches;
    sa, sb, result := sa0, sb0, None;
    var valid := ValidateBoth(toksA, toksB, cfg.slots);
    if !valid { return; }
    pa.Clear();
    pb.Clear();
    pa.ctx.SetSkipCopy(false);
    pb.ctx.SetSkipCopy(false);
    ghost var n := AtLeastOne(cfg.window);
    ghost var goalA := GoalOf(pa.ctx.net, stepA, sa0, toksA, n, 0);
    ghost var goalB := GoalOf(pb.ctx.net, stepB, sb0, toksB, n, 0);
    StartAndEnd(pa.ctx.net, stepA, sa0, toksA, n, 0);
    StartAndEnd(pb.ctx.net, stepB, sb0, toksB, n, 0);
    NotYet(pa.ctx.net, stepA, sa0, toksA, n, 0, goalA);
    NotYet(pb.ctx.net, stepB, sb0, toksB, n, 0, goalB);
    var ok, ctxA, tokA, ctxB, tokB;
    ok, sa, ctxA, tokA := PromptAndStep0(pa.ctx, toksA, stepA, sa0, n, 0, goalA);
    if !ok { return; }
    ok, sb, ctxB, tokB := PromptAndStep0(pb.ctx, toksB, stepB, sb0, n, 0, goalB);
    if !ok {
      NotYet(pa.ctx.net, stepA, sa, ctxA, n - 1, 1, goalA);
      return;
    }
    pa.ctx.SetSkipCopy(true);
    pb.ctx.SetSkipCopy(true);
    ok, sa, sb, ctxA, ctxB := Alternate(pa, pb, dbuf, cfg.window, toksA, toksB, stepA, stepB, sa, sb,
                                        ctxA, ctxB, tokA, tokB, goalA, goalB);
    pa.ctx.SetSkipCopy(false);
    pb.ctx.SetSkipCopy(false);
    if ok { result := Some((ctxA, ctxB)); }
  }

  // ---- inputs at which the two paths differ, and a decode stays in flight ----

  /** The two paths agree on a window for every sampler exactly when it is not empty. */
  lemma SameWindow<S, L>(net: seq<int> -> L, step: Sampler<S, L>, st: S, toks: seq<seq<int>>, n: nat)
    requires toks != []
    ensures Generate(net, step, st, toks, AtLeastOne(n)).1 == Generate(net, step, st, toks, n).1 <==> n > 0
  {
    if n == 0 {
      WindowShape(net, step, st, toks, 0, 0);
      WindowShape(net, step, st, toks, 1, 0);
      var none, one := Generate(net, step, st, toks, 0).1, Generate(net, step, st, toks, 1).1;
      if one.Some? { assert |none.value[0]| == |toks[0]| != |one.value[0]|; }
    }
  }

  /** Every prompt leaves room for the window. */
  ghost predicate Roomy(cfg: Config, toks: seq<seq<int>>) {
    forall s :: 0 <= s < |toks| ==> |toks[s]| + cfg.window <= cfg.ctxPerSlot
  }

  /** Of two batches of one size, both paths accept the same exactly when those that this one
      accepts leave room for the window. */
  lemma SameInputs(cfg: Config, toksA: seq<seq<int>>, toksB: seq<seq<int>>)
    requires |toksA| == |toksB|
    ensures ValidInput(cfg, toksA) && ValidInput(cfg, toksB)
            <==> Batches(toksA, toksB, cfg.slots) && Roomy(cfg, toksA) && Roomy(cfg, toksB)
    ensures (Batches(toksA, toksB, cfg.slots) <==> ValidInput(cfg, toksA) && ValidInput(cfg, toksB))
            <==> (Batches(toksA, toksB, cfg.slots) ==> Roomy(cfg, toksA) && Roomy(cfg, toksB))
  {
  }

  /** A window of length 0 samples nothing alone, one token here. */
  lemma ZeroWindowDiffers<L>(net: seq<int> -> L)
    ensures Generate(net, StopsAfterOne<L>(false), 0, [[3]], 0) == (0, Some([[3]]))
    ensures Generate(net, StopsAfterOne<L>(false), 0, [[3]], AtLeastOne(0)) == (1, Some([[3, 0]]))
  {
    var step := StopsAfterOne<L>(false);
    var r := step(0, Logits(net, [[3]]), [[3]]);
    assert r.1.value == [0];
    assert Push([[3]], [0]) == [[3, 0]] by { assert [3] + [0] == [3, 0]; }
    assert Generate(net, step, 1, [[3, 0]], 0) == (1, Some([[3, 0]]));
  }

  /** A prompt that leaves no room for the window is accepted here and not there. */
  lemma RoomNotChecked()
    ensures var cfg := Config(4, 1, 4, false, 8);
            Batches([[3]], [[3]], cfg.slots) && !ValidInput(cfg, [[3]])
  {
    assert |[[3]][0]| + 4 > 4;
  }

  /** When both samplers give up at their second step, batch A is sampled first and batch B's
      decode stays in flight. */
  method DecodeLeftInFlight<L(!new)>(pa: Pipe<L>, pb: Pipe<L>, dbuf: array<seq<L>>, cfg: Config, toksA: seq<seq<int>>,
                                     toksB: seq<seq<int>>)
    requires pa.ctx != pb.ctx && pa != pb && dbuf.Length == 2 && |pa.ctx.kv| == |pb.ctx.kv| == cfg.slots
    requires pa.Valid() && pb.Valid() && Batches(toksA, toksB, cfg.slots) && cfg.window >= 2
    modifies pa, pb, pa.ctx, pb.ctx, dbuf
    ensures pb.pending.Some? && pa.pending.None?
  {
    StopsAtSecond(pa.ctx.net, toksA, cfg.window, false);
    StopsAtSecond(pb.ctx.net, toksB, cfg.window, false);
    var sa, sb, result := RunDouble(pa, pb, dbuf, cfg, toksA, toksB, StopsAfterOne<L>(false), StopsAfterOne<L>(false), 0, 0);
  }
}
