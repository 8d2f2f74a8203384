/** The hand-off between the mining thread and the worker groups of a sampler pool, over every
    interleaving: a step is one mutex section or one sampled stream. */
module Barrier {
  import SamplerPool

  // ---- the machine ----

  /** `sorts[g]` says whether group `g`'s GPU sort succeeds. */
  datatype Input<L> = Input(rows: seq<L>, device: bool, sorts: seq<bool>)

  /** What the mining thread lends the workers for one step: inputs to read, a buffer to fill. */
  datatype Loan<L> = Loan(input: Input<L>, out: seq<int>)

  datatype Config<!M, !L> = Config(bounds: seq<nat>, onLogits: (M, nat, L, bool) -> (M, int))

  /** A running worker uses the loan of generation `step`, taken when it woke up. */
  datatype Phase = Waiting | Running(step: nat, next: nat, ok: bool) | Exited

  datatype Worker<M> = Worker(seen: nat, phase: Phase, miner: M)

  datatype State<M, L> = State(gen: nat, stepOk: bool, done: seq<nat>, workers: seq<Worker<M>>,
                               loans: seq<Loan<L>>, inStep: bool, stop: bool)

  datatype Action<L> =
    | Publish(input: Input<L>)
    | Take(g: nat)
    | Sample(g: nat)
    | Report(g: nat)
    | Return
    | Stop

  ghost predicate ValidConfig<M, L>(c: Config<M, L>) {
    |c.bounds| >= 2 && c.bounds[0] == 0
    && forall g: nat, h: nat :: g < h < |c.bounds| ==> c.bounds[g] <= c.bounds[h]
  }

  function Groups<M, L>(c: Config<M, L>): int { |c.bounds| - 1 }

  ghost predicate Shaped<M, L>(c: Config<M, L>, s: State<M, L>) {
    ValidConfig(c) && |s.done| == |s.workers| == Groups(c)
    && (!s.stop ==> s.gen == |s.loans|)
    && (forall g :: 0 <= g < Groups(c) ==> s.workers[g].seen <= s.gen)
    && (forall j :: 0 <= j < |s.loans| ==> ValidInput(c, s.loans[j].input) && |s.loans[j].out| == c.bounds[Groups(c)])
    && forall g :: 0 <= g < Groups(c) && s.workers[g].phase.Running? ==> 0 < s.workers[g].phase.step <= |s.loans|
  }

  ghost predicate ValidInput<M, L>(c: Config<M, L>, input: Input<L>)
    requires ValidConfig(c)
  {
    |input.rows| == c.bounds[Groups(c)] && |input.sorts| == Groups(c)
  }

  /** Device logits that could not be sorted have no host copy to fall back on. */
  predicate Unsorted<L>(input: Input<L>, g: nat)
    requires g < |input.sorts|
  {
    input.device && !input.sorts[g]
  }

  ghost predicate Busy<M, L>(c: Config<M, L>, s: State<M, L>, g: nat)
    requires Shaped(c, s) && g < Groups(c)
  {
    s.workers[g].phase.Running? && s.workers[g].phase.ok && c.bounds[g] <= s.workers[g].phase.next < c.bounds[g + 1]
  }

  ghost predicate Enabled<M, L>(c: Config<M, L>, s: State<M, L>, a: Action<L>)
    requires Shaped(c, s)
  {
    match a
    case Publish(input) => !s.inStep && !s.stop && ValidInput(c, input)
    case Take(g) => g < Groups(c) && s.workers[g].phase.Waiting? && (s.gen != s.workers[g].seen || s.stop)
    case Sample(g) => g < Groups(c) && Busy(c, s, g)
    case Report(g) => g < Groups(c) && s.workers[g].phase.Running? && !Busy(c, s, g)
    case Return => s.inStep && forall g :: 0 <= g < Groups(c) ==> s.done[g] == s.gen
    case Stop => !s.inStep && !s.stop
  }

  function Apply<M, L>(c: Config<M, L>, s: State<M, L>, a: Action<L>): State<M, L>
    requires Shaped(c, s) && Enabled(c, s, a)
  {
    match a
    case Publish(input) =>
      s.(loans := s.loans + [Loan(input, seq(|input.rows|, _ => -1))], stepOk := true, gen := s.gen + 1, inStep := true)
    case Take(g) =>
      var w := s.workers[g];
      if s.stop then s.(workers := s.workers[g := w.(phase := Exited)])
      else
        s.(workers := s.workers[g := Worker(s.gen, Running(s.gen, c.bounds[g], !Unsorted(s.loans[s.gen - 1].input, g)), w.miner)])
    case Sample(g) =>
      var w := s.workers[g];
      var loan := s.loans[w.phase.step - 1];
      var i := w.phase.next;
      var r := c.onLogits(w.miner, i - c.bounds[g], loan.input.rows[i], loan.input.sorts[g]);
      var w' := Worker(w.seen, Running(w.phase.step, i + 1, r.1 >= 0), r.0);
      s.(workers := s.workers[g := w'],
         loans := if r.1 < 0 then s.loans else s.loans[w.phase.step - 1 := Loan(loan.input, loan.out[i := r.1])])
    case Report(g) =>
      var w := s.workers[g];
      s.(stepOk := s.stepOk && w.phase.ok, done := s.done[g := w.seen], workers := s.workers[g := w.(phase := Waiting)])
    case Return => s.(inStep := false)
    case Stop => s.(stop := true, gen := s.gen + 1)
  }

  lemma ShapeKept<M, L>(c: Config<M, L>, s: State<M, L>, a: Action<L>)
    requires Shaped(c, s) && Enabled(c, s, a)
    ensures Shaped(c, Apply(c, s, a))
  {
  }

  // ---- what a step is meant to do ----

  datatype Outcome<M> = Outcome(miner: M, written: seq<int>, ok: bool)

  /** Group `g` samples its streams from `i` on, in order, until one is refused. */
  ghost function Tokens<M, L>(c: Config<M, L>, m: M, g: nat, input: Input<L>, i: nat): Outcome<M>
    requires ValidConfig(c) && ValidInput(c, input) && g < Groups(c) && c.bounds[g] <= i <= c.bounds[g + 1]
    decreases c.bounds[g + 1] - i
  {
    if i == c.bounds[g + 1] then Outcome(m, [], true)
    else
      var r := c.onLogits(m, i - c.bounds[g], input.rows[i], input.sorts[g]);
      if r.1 < 0 then Outcome(r.0, [], false)
      else
        var rest := Tokens(c, r.0, g, input, i + 1);
        Outcome(rest.miner, [r.1] + rest.written, rest.ok)
  }

  ghost predicate Sized<M, L>(c: Config<M, L>, input: Input<L>, g: nat) {
    ValidConfig(c) && ValidInput(c, input) && g < Groups(c)
  }

  ghost function GroupStep<M, L>(c: Config<M, L>, m: M, g: nat, input: Input<L>): Outcome<M>
    requires Sized(c, input, g)
  {
    if Unsorted(input, g) then Outcome(m, [], false) else Tokens(c, m, g, input, c.bounds[g])
  }

  /** A group's part of the output buffer: its tokens, then -1 where it stopped early. */
  function Padded(written: seq<int>, size: nat): seq<int> {
    if |written| <= size then written + seq(size - |written|, _ => -1) else written
  }

  lemma {:induction false} BoundsOrdered(bounds: seq<nat>, n: nat, g: nat, h: nat)
    requires SamplerPool.Partition(bounds, n) && g <= h < |bounds|
    ensures bounds[g] <= bounds[h]
    decreases h
  {
    if g < h { BoundsOrdered(bounds, n, g, h - 1); assert bounds[h - 1] <= bounds[h - 1 + 1]; }
  }

  /** The pool's own split is a valid configuration. */
  lemma SplitIsValid<M, L>(c: Config<M, L>, n: nat)
    requires SamplerPool.Partition(c.bounds, n)
    ensures ValidConfig(c) && c.bounds[Groups(c)] == n
  {
    forall g: nat, h: nat | g < h < |c.bounds|
      ensures c.bounds[g] <= c.bounds[h]
    {
      BoundsOrdered(c.bounds, n, g, h);
    }
  }

  // ---- one worker during a step ----

  /** `m0` is the group's sampler before the step, `part` its part of the buffer. */
  ghost predicate WorkerMid<M, L>(c: Config<M, L>, gen: nat, input: Input<L>, m0: M, g: nat, w: Worker<M>, done: nat,
                                  part: seq<int>)
    requires Sized(c, input, g)
  {
    var lo, hi := c.bounds[g], c.bounds[g + 1];
    var goal := GroupStep(c, m0, g, input);
    |part| == hi - lo &&
    match w.phase
    case Exited => false
    case Waiting =>
      w.seen == done &&
      if done == gen then w.miner == goal.miner && part == Padded(goal.written, hi - lo)
      else done + 1 == gen && w.miner == m0 && part == Padded([], hi - lo)
    case Running(step, next, ok) =>
      step == gen == w.seen && done + 1 == gen && lo <= next <= hi &&
      if ok then
        var rest := Tokens(c, w.miner, g, input, next);
        part == Padded(part[..next - lo], hi - lo) && goal == Outcome(rest.miner, part[..next - lo] + rest.written, rest.ok)
      else !goal.ok && w.miner == goal.miner && part == Padded(goal.written, hi - lo)
  }

  function Part<M, L>(c: Config<M, L>, out: seq<int>, g: nat): seq<int>
    requires g + 1 < |c.bounds| && c.bounds[g] <= c.bounds[g + 1] <= |out|
  {
    out[c.bounds[g]..c.bounds[g + 1]]
  }

  lemma WakeUp<M, L>(c: Config<M, L>, gen: nat, input: Input<L>, m0: M, g: nat, w: Worker<M>, done: nat, part: seq<int>)
    requires Sized(c, input, g) && WorkerMid(c, gen, input, m0, g, w, done, part) && w.phase.Waiting? && w.seen != gen
    ensures WorkerMid(c, gen, input, m0, g, Worker(gen, Running(gen, c.bounds[g], !Unsorted(input, g)), w.miner), done, part)
  {
  }

  lemma PadOne(part: seq<int>, k: nat, t: int)
    requires k < |part| && part == Padded(part[..k], |part|)
    ensures part[k := t][..k + 1] == part[..k] + [t] && part[k := t] == Padded(part[k := t][..k + 1], |part|)
  {
  }

  lemma SampleOne<M, L>(c: Config<M, L>, gen: nat, input: Input<L>, m0: M, g: nat, w: Worker<M>, done: nat, part: seq<int>)
    requires Sized(c, input, g) && WorkerMid(c, gen, input, m0, g, w, done, part)
    requires w.phase.Running? && w.phase.ok && w.phase.next < c.bounds[g + 1]
    ensures var i := w.phase.next;
            var r := c.onLogits(w.miner, i - c.bounds[g], input.rows[i], input.sorts[g]);
            WorkerMid(c, gen, input, m0, g, Worker(w.seen, Running(w.phase.step, i + 1, r.1 >= 0), r.0), done,
                      if r.1 < 0 then part else part[i - c.bounds[g] := r.1])
  {
    hide Padded;
    var k := w.phase.next - c.bounds[g];
    var r := c.onLogits(w.miner, k, input.rows[w.phase.next], input.sorts[g]);
    var rest := Tokens(c, w.miner, g, input, w.phase.next);
    PadOne(part, k, r.1);
    if r.1 >= 0 {
      var rest' := Tokens(c, r.0, g, input, w.phase.next + 1);
      assert part[..k] + ([r.1] + rest'.written) == (part[..k] + [r.1]) + rest'.written;
    } else {
      assert part[..k] + [] == part[..k];
    }
  }

  lemma Finish<M, L>(c: Config<M, L>, gen: nat, input: Input<L>, m0: M, g: nat, w: Worker<M>, done: nat, part: seq<int>)
    requires Sized(c, input, g) && WorkerMid(c, gen, input, m0, g, w, done, part)
    requires w.phase.Running? && !(w.phase.ok && w.phase.next < c.bounds[g + 1])
    ensures w.phase.ok <==> GroupStep(c, m0, g, input).ok
    ensures WorkerMid(c, gen, input, m0, g, w.(phase := Waiting), w.seen, part)
  {
    if w.phase.ok {
      assert part[..w.phase.next - c.bounds[g]] == part;
      assert part + [] == part;
    }
  }

  // ---- the whole machine during a step ----

  /** Between two steps every worker waits, having handled every generation so far. */
  ghost predicate Quiet<M, L>(c: Config<M, L>, s: State<M, L>) {
    Shaped(c, s) && !s.inStep && !s.stop
    && forall g :: 0 <= g < Groups(c) ==> s.workers[g].phase.Waiting? && s.workers[g].seen == s.done[g] == s.gen
  }

  ghost predicate GroupMid<M, L>(c: Config<M, L>, s0: State<M, L>, input: Input<L>, s: State<M, L>, g: nat)
    requires Quiet(c, s0) && Shaped(c, s) && ValidInput(c, input) && g < Groups(c) && s0.gen < |s.loans|
  {
    WorkerMid(c, s.gen, input, s0.workers[g].miner, g, s.workers[g], s.done[g], Part(c, s.loans[s0.gen].out, g))
  }

  ghost predicate Mid<M, L>(c: Config<M, L>, s0: State<M, L>, input: Input<L>, s: State<M, L>) {
    Quiet(c, s0) && Shaped(c, s) && ValidInput(c, input) && s.inStep && !s.stop && s.gen == s0.gen + 1
    && s.loans[..s0.gen] == s0.loans && s.loans[s0.gen].input == input
    && (forall g: nat :: g < Groups(c) ==> GroupMid(c, s0, input, s, g))
    && (s.stepOk <==> forall g: nat :: g < Groups(c) && s.done[g] == s.gen ==> GroupStep(c, s0.workers[g].miner, g, input).ok)
  }

  lemma PublishStarts<M, L>(c: Config<M, L>, s0: State<M, L>, input: Input<L>)
    requires Quiet(c, s0) && ValidInput(c, input)
    ensures Mid(c, s0, input, Apply(c, s0, Publish(input)))
  {
    var s := Apply(c, s0, Publish(input));
    ShapeKept(c, s0, Publish(input));
    forall g: nat | g < Groups(c)
      ensures GroupMid(c, s0, input, s, g)
    {
      assert Part(c, s.loans[s0.gen].out, g) == Padded([], c.bounds[g + 1] - c.bounds[g]);
    }
  }

  lemma TakeKeeps<M, L>(c: Config<M, L>, s0: State<M, L>, input: Input<L>, s: State<M, L>, g: nat)
    requires Mid(c, s0, input, s) && Enabled(c, s, Take(g))
    ensures Mid(c, s0, input, Apply(c, s, Take(g)))
  {
    hide GroupStep, WorkerMid;
    var t := Apply(c, s, Take(g));
    ShapeKept(c, s, Take(g));
    forall h: nat | h < Groups(c)
      ensures GroupMid(c, s0, input, t, h)
    {
      assert GroupMid(c, s0, input, s, h);
      if h == g {
        WakeUp(c, s.gen, input, s0.workers[g].miner, g, s.workers[g], s.done[g], Part(c, s.loans[s0.gen].out, g));
      }
    }
  }

  lemma SampleKeeps<M, L>(c: Config<M, L>, s0: State<M, L>, input: Input<L>, s: State<M, L>, g: nat)
    requires Mid(c, s0, input, s) && Enabled(c, s, Sample(g))
    ensures Mid(c, s0, input, Apply(c, s, Sample(g)))
  {
    hide GroupStep, WorkerMid;
    var t := Apply(c, s, Sample(g));
    ShapeKept(c, s, Sample(g));
    assert GroupMid(c, s0, input, s, g);
    RunningNow(c, s.gen, input, s0.workers[g].miner, g, s.workers[g], s.done[g], Part(c, s.loans[s0.gen].out, g));
    SampleOne(c, s.gen, input, s0.workers[g].miner, g, s.workers[g], s.done[g], Part(c, s.loans[s0.gen].out, g));
    forall h: nat | h < Groups(c)
      ensures GroupMid(c, s0, input, t, h)
    {
      assert GroupMid(c, s0, input, s, h);
      SamplePart(c, s, g, h);
    }
  }

  lemma RunningNow<M, L>(c: Config<M, L>, gen: nat, input: Input<L>, m0: M, g: nat, w: Worker<M>, done: nat, part: seq<int>)
    requires Sized(c, input, g) && WorkerMid(c, gen, input, m0, g, w, done, part)
    ensures w.phase.Running? ==> w.phase.step == gen == w.seen == done + 1
    ensures w.phase.Waiting? ==> w.seen == done && (done == gen || done + 1 == gen)
    ensures !w.phase.Exited?
  {
  }

  /** A sample touches only the sampling group's part of the buffer. */
  lemma SamplePart<M, L>(c: Config<M, L>, s: State<M, L>, g: nat, h: nat)
    requires Shaped(c, s) && g < Groups(c) && h < Groups(c) && Busy(c, s, g)
    ensures var p, i := s.workers[g].phase.step - 1, s.workers[g].phase.next;
            var r := c.onLogits(s.workers[g].miner, i - c.bounds[g], s.loans[p].input.rows[i], s.loans[p].input.sorts[g]);
            Shaped(c, Apply(c, s, Sample(g)))
            && Part(c, Apply(c, s, Sample(g)).loans[p].out, h)
               == if h == g && r.1 >= 0 then Part(c, s.loans[p].out, h)[i - c.bounds[g] := r.1] else Part(c, s.loans[p].out, h)
  {
    ShapeKept(c, s, Sample(g));
  }

  lemma ReportKeeps<M, L>(c: Config<M, L>, s0: State<M, L>, input: Input<L>, s: State<M, L>, g: nat)
    requires Mid(c, s0, input, s) && Enabled(c, s, Report(g))
    ensures Mid(c, s0, input, Apply(c, s, Report(g)))
  {
    hide GroupStep, WorkerMid;
    var t := Apply(c, s, Report(g));
    ShapeKept(c, s, Report(g));
    assert GroupMid(c, s0, input, s, g);
    RunningNow(c, s.gen, input, s0.workers[g].miner, g, s.workers[g], s.done[g], Part(c, s.loans[s0.gen].out, g));
    InRange(c, s.gen, input, s0.workers[g].miner, g, s.workers[g], s.done[g], Part(c, s.loans[s0.gen].out, g));
    Finish(c, s.gen, input, s0.workers[g].miner, g, s.workers[g], s.done[g], Part(c, s.loans[s0.gen].out, g));
    forall h: nat | h < Groups(c)
      ensures GroupMid(c, s0, input, t, h)
    {
      assert GroupMid(c, s0, input, s, h);
    }
  }

  lemma InRange<M, L>(c: Config<M, L>, gen: nat, input: Input<L>, m0: M, g: nat, w: Worker<M>, done: nat, part: seq<int>)
    requires Sized(c, input, g) && WorkerMid(c, gen, input, m0, g, w, done, part)
    ensures w.phase.Running? ==> c.bounds[g] <= w.phase.next <= c.bounds[g + 1]
  {
  }

  // ---- what a step comes to ----

  ghost predicate AllOk<M, L>(c: Config<M, L>, s0: State<M, L>, input: Input<L>)
    requires Quiet(c, s0) && ValidInput(c, input)
  {
    forall g: nat :: g < Groups(c) ==> GroupStep(c, s0.workers[g].miner, g, input).ok
  }

  /** The tokens of the first `k` groups, in stream order. */
  ghost function Gathered<M, L>(c: Config<M, L>, s0: State<M, L>, input: Input<L>, k: nat): seq<int>
    requires Quiet(c, s0) && ValidInput(c, input) && k <= Groups(c)
  {
    if k == 0 then []
    else Gathered(c, s0, input, k - 1)
         + Padded(GroupStep(c, s0.workers[k - 1].miner, k - 1, input).written, c.bounds[k] - c.bounds[k - 1])
  }

  /** The state a step leads to, computed one group after the other. */
  ghost function StepResult<M, L>(c: Config<M, L>, s0: State<M, L>, input: Input<L>): State<M, L>
    requires Quiet(c, s0) && ValidInput(c, input)
  {
    State(s0.gen + 1, AllOk(c, s0, input), seq(Groups(c), _ => s0.gen + 1),
          seq(Groups(c), g requires 0 <= g < Groups(c) =>
            Worker(s0.gen + 1, Waiting, GroupStep(c, s0.workers[g].miner, g, input).miner)),
          s0.loans + [Loan(input, Gathered(c, s0, input, Groups(c)))], false, false)
  }

  lemma {:induction false} GatheredIs<M, L>(c: Config<M, L>, s0: State<M, L>, input: Input<L>, out: seq<int>, k: nat)
    requires Quiet(c, s0) && ValidInput(c, input) && k <= Groups(c) && |out| == c.bounds[Groups(c)]
    requires forall g: nat :: g < k ==>
               Part(c, out, g) == Padded(GroupStep(c, s0.workers[g].miner, g, input).written, c.bounds[g + 1] - c.bounds[g])
    ensures out[..c.bounds[k]] == Gathered(c, s0, input, k)
  {
    hide GroupStep, Padded;
    if k > 0 {
      GatheredIs(c, s0, input, out, k - 1);
      assert out[..c.bounds[k]] == out[..c.bounds[k - 1]] + Part(c, out, k - 1);
    }
  }

  /** The mining thread goes on only when all groups are through, whatever the interleaving was,
      with every stream's token written by its own group from this step's inputs. */
  lemma ReturnDone<M, L>(c: Config<M, L>, s0: State<M, L>, input: Input<L>, s: State<M, L>)
    requires Mid(c, s0, input, s) && Enabled(c, s, Return)
    ensures Apply(c, s, Return) == StepResult(c, s0, input)
  {
    hide GroupStep, WorkerMid, Padded, Part;
    var t, r, out := Apply(c, s, Return), StepResult(c, s0, input), s.loans[s0.gen].out;
    forall g: nat | g < Groups(c)
      ensures Part(c, out, g) == Padded(GroupStep(c, s0.workers[g].miner, g, input).written, c.bounds[g + 1] - c.bounds[g])
      ensures s.workers[g] == Worker(s.gen, Waiting, GroupStep(c, s0.workers[g].miner, g, input).miner)
    {
      assert GroupMid(c, s0, input, s, g);
      HandledBy(c, s.gen, input, s0.workers[g].miner, g, s.workers[g], Part(c, out, g));
    }
    GatheredIs(c, s0, input, out, Groups(c));
    assert out[..c.bounds[Groups(c)]] == out;
    assert t.loans == r.loans by { assert s.loans == s.loans[..s0.gen] + [s.loans[s0.gen]]; }
    assert t.workers == r.workers;
    assert t.done == r.done;
  }

  lemma HandledBy<M, L>(c: Config<M, L>, gen: nat, input: Input<L>, m0: M, g: nat, w: Worker<M>, part: seq<int>)
    requires Sized(c, input, g) && WorkerMid(c, gen, input, m0, g, w, gen, part)
    ensures part == Padded(GroupStep(c, m0, g, input).written, c.bounds[g + 1] - c.bounds[g])
    ensures w == Worker(gen, Waiting, GroupStep(c, m0, g, input).miner)
  {
  }

  lemma ResultQuiet<M, L>(c: Config<M, L>, s0: State<M, L>, input: Input<L>)
    requires Quiet(c, s0) && ValidInput(c, input)
    ensures Quiet(c, StepResult(c, s0, input))
  {
    GatheredSize(c, s0, input, Groups(c));
  }

  lemma {:induction false} TokensFit<M, L>(c: Config<M, L>, m: M, g: nat, input: Input<L>, i: nat)
    requires Sized(c, input, g) && c.bounds[g] <= i <= c.bounds[g + 1]
    ensures var r := Tokens(c, m, g, input, i);
            |r.written| <= c.bounds[g + 1] - i && (r.ok ==> |r.written| == c.bounds[g + 1] - i)
            && forall j :: 0 <= j < |r.written| ==> r.written[j] >= 0
    decreases c.bounds[g + 1] - i
  {
    if i < c.bounds[g + 1] {
      TokensFit(c, c.onLogits(m, i - c.bounds[g], input.rows[i], input.sorts[g]).0, g, input, i + 1);
    }
  }

  lemma {:induction false} GatheredSize<M, L>(c: Config<M, L>, s0: State<M, L>, input: Input<L>, k: nat)
    requires Quiet(c, s0) && ValidInput(c, input) && k <= Groups(c)
    ensures |Gathered(c, s0, input, k)| == c.bounds[k]
    ensures AllOk(c, s0, input) ==> forall s :: 0 <= s < c.bounds[k] ==> Gathered(c, s0, input, k)[s] >= 0
  {
    if k > 0 {
      GatheredSize(c, s0, input, k - 1);
      TokensFit(c, s0.workers[k - 1].miner, k - 1, input, c.bounds[k - 1]);
    }
  }

  // ---- whole runs ----

  function Init<M, L>(c: Config<M, L>, miners: seq<M>): State<M, L> {
    State(0, true, seq(|miners|, _ => 0), seq(|miners|, g requires 0 <= g < |miners| => Worker(0, Waiting, miners[g])),
          [], false, false)
  }

  datatype Option<+T> = None | Some(value: T)

  /** The state after `acts`, if each was possible when taken. */
  ghost function Exec<M, L>(c: Config<M, L>, s0: State<M, L>, acts: seq<Action<L>>): Option<State<M, L>>
  {
    if acts == [] then Some(s0)
    else
      var k := |acts| - 1;
      var before := Exec(c, s0, acts[..k]);
      if before.Some? && Shaped(c, before.value) && Enabled(c, before.value, acts[k])
      then Some(Apply(c, before.value, acts[k])) else None
  }

  /** The inputs published, in order. */
  function Inputs<L>(acts: seq<Action<L>>): seq<Input<L>> {
    if acts == [] then []
    else Inputs(acts[..|acts| - 1]) + (if acts[|acts| - 1].Publish? then [acts[|acts| - 1].input] else [])
  }

  ghost predicate AllValid<M, L>(c: Config<M, L>, ins: seq<Input<L>>) {
    ValidConfig(c) && forall j :: 0 <= j < |ins| ==> ValidInput(c, ins[j])
  }

  /** One step after another, each computed group by group. */
  ghost function Sequential<M, L>(c: Config<M, L>, s0: State<M, L>, ins: seq<Input<L>>): (r: State<M, L>)
    requires Quiet(c, s0) && AllValid(c, ins)
    ensures Quiet(c, r) && r.gen == s0.gen + |ins|
  {
    if ins == [] then s0
    else
      var s := Sequential(c, s0, ins[..|ins| - 1]);
      ResultQuiet(c, s, ins[|ins| - 1]);
      StepResult(c, s, ins[|ins| - 1])
  }

  ghost predicate Shutdown<M, L>(c: Config<M, L>, q: State<M, L>, s: State<M, L>)
    requires Quiet(c, q)
  {
    s.stop && !s.inStep && s.gen == q.gen + 1 && s.loans == q.loans && s.done == q.done && s.stepOk == q.stepOk
        && |s.workers| == Groups(c)
    && forall g :: 0 <= g < Groups(c) ==> s.workers[g] == q.workers[g] || s.workers[g] == q.workers[g].(phase := Exited)
  }

  /** Between steps the machine is where the sequential computation is; during one it is on the
      way from there; after shutdown it never moves on. */
  ghost predicate Tracks<M, L>(c: Config<M, L>, s0: State<M, L>, ins: seq<Input<L>>, s: State<M, L>)
    requires Quiet(c, s0) && AllValid(c, ins)
  {
    if s.stop then Shutdown(c, Sequential(c, s0, ins), s)
    else if s.inStep then ins != [] && Mid(c, Sequential(c, s0, ins[..|ins| - 1]), ins[|ins| - 1], s)
    else s == Sequential(c, s0, ins)
  }

  lemma TracksShaped<M, L>(c: Config<M, L>, s0: State<M, L>, ins: seq<Input<L>>, s: State<M, L>)
    requires Quiet(c, s0) && AllValid(c, ins) && Tracks(c, s0, ins, s)
    ensures Shaped(c, s)
  {
  }

  lemma QuietMoves<M, L>(c: Config<M, L>, s: State<M, L>, a: Action<L>)
    requires Quiet(c, s) && Enabled(c, s, a)
    ensures a.Publish? || (a.Stop? && Shutdown(c, s, Apply(c, s, a)))
  {
  }

  lemma ShutdownKeeps<M, L>(c: Config<M, L>, q: State<M, L>, s: State<M, L>, a: Action<L>)
    requires Quiet(c, q) && Shutdown(c, q, s) && Shaped(c, s) && Enabled(c, s, a)
    ensures !a.Publish? && Shutdown(c, q, Apply(c, s, a))
  {
  }

  lemma MidKeeps<M, L>(c: Config<M, L>, s0: State<M, L>, input: Input<L>, s: State<M, L>, a: Action<L>)
    requires Mid(c, s0, input, s) && Enabled(c, s, a)
    ensures !a.Publish?
    ensures if a.Return? then Apply(c, s, a) == StepResult(c, s0, input) else Mid(c, s0, input, Apply(c, s, a))
  {
    hide GroupMid, GroupStep, AllOk, Shaped, StepResult;
    match a
    case Take(g) => TakeKeeps(c, s0, input, s, g);
    case Sample(g) => SampleKeeps(c, s0, input, s, g);
    case Report(g) => ReportKeeps(c, s0, input, s, g);
    case Return => ReturnDone(c, s0, input, s);
    case _ =>
  }

  lemma TracksNext<M, L>(c: Config<M, L>, s0: State<M, L>, ins: seq<Input<L>>, s: State<M, L>, a: Action<L>)
    requires Quiet(c, s0) && AllValid(c, ins) && Tracks(c, s0, ins, s) && Shaped(c, s) && Enabled(c, s, a)
    ensures a.Publish? ==> AllValid(c, ins + [a.input]) && Tracks(c, s0, ins + [a.input], Apply(c, s, a))
    ensures !a.Publish? ==> Tracks(c, s0, ins, Apply(c, s, a))
  {
    if s.stop {
      ShutdownKeeps(c, Sequential(c, s0, ins), s, a);
    } else if s.inStep {
      MidKeeps(c, Sequential(c, s0, ins[..|ins| - 1]), ins[|ins| - 1], s, a);
    } else {
      QuietMoves(c, s, a);
      if a.Publish? {
        assert (ins + [a.input])[..|ins|] == ins;
        PublishStarts(c, s, a.input);
      }
    }
  }

  /** Main theorem: every interleaving of every run agrees with the sequential computation. */
  lemma {:induction false} EveryRunTracks<M, L>(c: Config<M, L>, s0: State<M, L>, acts: seq<Action<L>>)
    requires Quiet(c, s0) && Exec(c, s0, acts).Some?
    ensures AllValid(c, Inputs(acts)) && Tracks(c, s0, Inputs(acts), Exec(c, s0, acts).value)
    ensures Shaped(c, Exec(c, s0, acts).value)
  {
    hide Tracks, Apply, Enabled;
    if acts == [] {
      StartTracks(c, s0);
    } else {
      var k := |acts| - 1;
      EveryRunTracks(c, s0, acts[..k]);
      assert Inputs(acts[..k]) + [] == Inputs(acts[..k]);
      TracksNext(c, s0, Inputs(acts[..k]), Exec(c, s0, acts[..k]).value, acts[k]);
      TracksShaped(c, s0, Inputs(acts), Exec(c, s0, acts).value);
    }
  }

  lemma StartTracks<M, L>(c: Config<M, L>, s0: State<M, L>)
    requires Quiet(c, s0)
    ensures AllValid(c, []) && Tracks(c, s0, [], s0)
  {
  }

  lemma InitQuiet<M, L>(c: Config<M, L>, miners: seq<M>)
    requires ValidConfig(c) && |miners| == Groups(c)
    ensures Quiet(c, Init<M, L>(c, miners))
  {
  }

  // ---- consequences ----

  function Count<L(==)>(acts: seq<Action<L>>, a: Action<L>): nat {
    if acts == [] then 0 else Count(acts[..|acts| - 1], a) + (if acts[|acts| - 1] == a then 1 else 0)
  }

  /** Each group takes each generation exactly once and reports it exactly once. */
  lemma {:induction false} HandledOnce<M, L>(c: Config<M, L>, miners: seq<M>, acts: seq<Action<L>>, g: nat)
    requires ValidConfig(c) && |miners| == Groups(c) && g < Groups(c)
    requires Exec(c, Init(c, miners), acts).Some? && !Exec(c, Init(c, miners), acts).value.stop
    ensures var s := Exec(c, Init(c, miners), acts).value;
            s.gen == |Inputs(acts)| && |s.workers| == |s.done| == Groups(c)
            && Count(acts, Take(g)) == s.workers[g].seen && Count(acts, Report(g)) == s.done[g]
            && s.gen - 1 <= s.done[g] <= s.workers[g].seen <= s.gen
            && (!s.inStep ==> s.done[g] == s.gen)
  {
    hide Tracks, Sequential, Quiet, Apply, Enabled, Shaped;
    InitQuiet(c, miners);
    EveryRunTracks(c, Init(c, miners), acts);
    WhereGroupIs(c, Init(c, miners), Inputs(acts), Exec(c, Init(c, miners), acts).value, g);
    if acts != [] {
      var k := |acts| - 1;
      EveryRunTracks(c, Init(c, miners), acts[..k]);
      if Exec(c, Init(c, miners), acts[..k]).value.stop {
        StopStays(c, Exec(c, Init(c, miners), acts[..k]).value, acts[k]);
      }
      HandledOnce(c, miners, acts[..k], g);
      WhereGroupIs(c, Init(c, miners), Inputs(acts[..k]), Exec(c, Init(c, miners), acts[..k]).value, g);
      MoveCounts(c, Exec(c, Init(c, miners), acts[..k]).value, acts[k], g);
    }
  }

  lemma StopStays<M, L>(c: Config<M, L>, s: State<M, L>, a: Action<L>)
    requires Shaped(c, s) && Enabled(c, s, a) && s.stop
    ensures Apply(c, s, a).stop
  {
  }

  lemma MoveCounts<M, L>(c: Config<M, L>, s: State<M, L>, a: Action<L>, g: nat)
    requires Shaped(c, s) && Enabled(c, s, a) && g < Groups(c) && !Apply(c, s, a).stop
    ensures !s.stop
    requires s.gen - 1 <= s.done[g] <= s.workers[g].seen <= s.gen
    requires s.workers[g].phase.Running? ==> s.workers[g].seen == s.done[g] + 1
    ensures Apply(c, s, a).workers[g].seen == s.workers[g].seen + if a == Take(g) then 1 else 0
    ensures Apply(c, s, a).done[g] == s.done[g] + if a == Report(g) then 1 else 0
  {
  }

  lemma WhereGroupIs<M, L>(c: Config<M, L>, s0: State<M, L>, ins: seq<Input<L>>, s: State<M, L>, g: nat)
    requires Quiet(c, s0) && AllValid(c, ins) && Tracks(c, s0, ins, s) && !s.stop && g < Groups(c)
    ensures |s.workers| == |s.done| == Groups(c) && s.gen == s0.gen + |ins|
    ensures s.gen - 1 <= s.done[g] <= s.workers[g].seen <= s.gen && (!s.inStep ==> s.done[g] == s.gen)
    ensures s.workers[g].phase.Waiting? ==> s.workers[g].seen == s.done[g]
    ensures s.workers[g].phase.Running? ==> s.inStep && s.workers[g].phase.step == s.workers[g].seen == s.gen == s.done[g] + 1
  {
    hide GroupStep, WorkerMid, StepResult, AllOk, Part;
    if s.inStep {
      var q, input := Sequential(c, s0, ins[..|ins| - 1]), ins[|ins| - 1];
      assert GroupMid(c, q, input, s, g);
      RunningNow(c, s.gen, input, q.workers[g].miner, g, s.workers[g], s.done[g], Part(c, s.loans[q.gen].out, g));
    }
  }

  /** A worker runs only while its own step is under way, so nothing lent for an earlier step is
      touched again. */
  lemma LoanReturned<M, L>(c: Config<M, L>, s0: State<M, L>, acts: seq<Action<L>>, a: Action<L>)
    requires Quiet(c, s0) && Exec(c, s0, acts + [a]).Some?
    ensures Exec(c, s0, acts).Some?
    ensures var s, t := Exec(c, s0, acts).value, Exec(c, s0, acts + [a]).value;
            |s.loans| <= |t.loans| && (forall j :: 0 <= j < |s.loans| && (j + 1 < |s.loans| || !s.inStep) ==>
                                         t.loans[j] == s.loans[j])
            && (a.Sample? ==> s.inStep && a.g < |s.workers| && s.workers[a.g].phase.Running?
                              && s.workers[a.g].phase.step == s.gen == |s.loans|)
  {
    assert (acts + [a])[..|acts|] == acts;
    EveryRunTracks(c, s0, acts);
    var s := Exec(c, s0, acts).value;
    hide Tracks, GroupStep, StepResult, Sequential;
    if a.Sample? {
      NoneRunsAfterStop(c, s0, Inputs(acts), s, a.g);
      WhereGroupIs(c, s0, Inputs(acts), s, a.g);
    }
  }

  lemma NoneRunsAfterStop<M, L>(c: Config<M, L>, s0: State<M, L>, ins: seq<Input<L>>, s: State<M, L>, g: nat)
    requires Quiet(c, s0) && AllValid(c, ins) && Tracks(c, s0, ins, s) && g < Groups(c) && |s.workers| == Groups(c)
    requires s.workers[g].phase.Running?
    ensures !s.stop
  {
  }

  /** What is left for group `g` to do in the step under way. */
  function Left<M, L>(c: Config<M, L>, s: State<M, L>, g: nat): int
    requires g < |s.workers| && g + 1 < |c.bounds|
  {
    match s.workers[g].phase
    case Waiting => if s.workers[g].seen == s.gen then 0 else 2 + c.bounds[g + 1] - c.bounds[g]
    case Running(_, next, ok) => if ok then 1 + c.bounds[g + 1] - next else 1
    case Exited => 0
  }

  function LeftOfAll<M, L>(c: Config<M, L>, s: State<M, L>, k: nat): int
    requires k <= |s.workers| && k < |c.bounds|
  {
    if k == 0 then 0 else LeftOfAll(c, s, k - 1) + Left(c, s, k - 1)
  }

  lemma {:induction false} LeftDrops<M, L>(c: Config<M, L>, s: State<M, L>, t: State<M, L>, g: nat, k: nat)
    requires k <= |s.workers| == |t.workers| && k < |c.bounds| && s.gen == t.gen && g < |s.workers| < |c.bounds|
    requires forall h: nat :: h < |s.workers| && h != g ==> t.workers[h] == s.workers[h]
    ensures LeftOfAll(c, t, k) == LeftOfAll(c, s, k) + if g < k then Left(c, t, g) - Left(c, s, g) else 0
  {
    if k > 0 { LeftDrops(c, s, t, g, k - 1); }
  }

  lemma {:induction false} LeftNonNegative<M, L>(c: Config<M, L>, s0: State<M, L>, input: Input<L>, s: State<M, L>, k: nat)
    requires Mid(c, s0, input, s) && k <= Groups(c)
    ensures LeftOfAll(c, s, k) >= 0
  {
    if k > 0 {
      LeftNonNegative(c, s0, input, s, k - 1);
      assert GroupMid(c, s0, input, s, k - 1);
    }
  }

  lemma MoveShrinks<M, L>(c: Config<M, L>, s0: State<M, L>, input: Input<L>, s: State<M, L>, a: Action<L>)
    requires Mid(c, s0, input, s) && Enabled(c, s, a) && !a.Return?
    ensures !a.Publish? && !a.Stop? && a.g < Groups(c) && Apply(c, s, a).gen == s.gen
    ensures forall h: nat :: h < |s.workers| && h != a.g ==> Apply(c, s, a).workers[h] == s.workers[h]
    ensures |Apply(c, s, a).workers| == |s.workers| && Left(c, Apply(c, s, a), a.g) < Left(c, s, a.g)
  {
    assert a.g < Groups(c);
    assert GroupMid(c, s0, input, s, a.g);
  }

  /** Until the step returns some thread can move. */
  lemma NeverStuck<M, L>(c: Config<M, L>, s0: State<M, L>, input: Input<L>, s: State<M, L>) returns (a: Action<L>)
    requires Mid(c, s0, input, s)
    ensures Enabled(c, s, a) && !a.Publish? && !a.Stop?
  {
    if g: nat :| g < Groups(c) && s.done[g] != s.gen {
      assert GroupMid(c, s0, input, s, g);
      if s.workers[g].phase.Waiting? { return Take(g); }
      if Busy(c, s, g) { return Sample(g); }
      return Report(g);
    }
    return Return;
  }

  /** A step of `n` streams on `G` groups takes at most `n + 2G` moves before it returns. */
  lemma {:induction false} StepEnds<M, L>(c: Config<M, L>, s0: State<M, L>, input: Input<L>, s: State<M, L>, acts: seq<Action<L>>)
    requires Mid(c, s0, input, s) && Exec(c, s, acts).Some? && Return !in acts
    ensures Mid(c, s0, input, Exec(c, s, acts).value)
    ensures |acts| <= LeftOfAll(c, s, Groups(c)) - LeftOfAll(c, Exec(c, s, acts).value, Groups(c))
  {
    hide GroupStep, GroupMid, AllOk, StepResult, Apply, Enabled;
    if acts != [] {
      var k := |acts| - 1;
      StepEnds(c, s0, input, s, acts[..k]);
      var t := Exec(c, s, acts[..k]).value;
      assert acts[k] in acts;
      MidKeeps(c, s0, input, t, acts[k]);
      MoveShrinks(c, s0, input, t, acts[k]);
      LeftDrops(c, t, Apply(c, t, acts[k]), acts[k].g, Groups(c));
    }
  }

  lemma StepIsShort<M, L>(c: Config<M, L>, s0: State<M, L>, input: Input<L>, acts: seq<Action<L>>)
    requires Quiet(c, s0) && ValidInput(c, input) && Return !in acts
    requires Exec(c, Apply(c, s0, Publish(input)), acts).Some?
    ensures |acts| <= c.bounds[Groups(c)] + 2 * Groups(c)
  {
    var s := Apply(c, s0, Publish(input));
    PublishStarts(c, s0, input);
    StepEnds(c, s0, input, s, acts);
    LeftNonNegative(c, s0, input, Exec(c, s, acts).value, Groups(c));
    AllLeft(c, s, Groups(c));
  }

  lemma {:induction false} AllLeft<M, L>(c: Config<M, L>, s: State<M, L>, k: nat)
    requires Shaped(c, s) && k <= Groups(c)
    requires forall g: nat :: g < k ==> s.workers[g].phase.Waiting? && s.workers[g].seen != s.gen
    ensures LeftOfAll(c, s, k) == c.bounds[k] + 2 * k
  {
    if k > 0 { AllLeft(c, s, k - 1); }
  }
}
