/** Mining threads hand shares to K submitter threads, which may check each share before sending
    it. A step is one mutex section, one counter increment or one call. */
module SubmitQueue {

  datatype Mode = Off | Shadow | On
  datatype Verdict = Pass | Reject | Unavailable

  datatype Config<!Share> = Config(mode: Mode, judge: Share -> Verdict)

  datatype Phase<Share> =
    | Ready
    | Asleep
    | Taken(share: Share)
    | Checked(share: Share)
    | Keeping(share: Share)
    | Dropping(share: Share)
    | Sent
    | Exited

  datatype State<Share> = State(
    pushed: seq<Share>, queue: seq<Share>, submitters: seq<Phase<Share>>,
    submitted: seq<Share>, discarded: seq<Share>,
    notifies: nat, producersDone: bool, notifyAll: bool,
    checked: nat, passed: nat, rejected: nat, unavailable: nat, dropped: nat, shares: nat)

  /** `Move(k)` is the only thing submitter `k` can do next; `Wake` may come without a reason. */
  datatype Action<Share> =
    | Push(batch: seq<Share>)
    | Notify(k: nat)
    | Finish
    | NotifyAll
    | Wake(k: nat)
    | Move(k: nat)

  predicate AnyAsleep<Share>(s: State<Share>) {
    exists k :: 0 <= k < |s.submitters| && s.submitters[k].Asleep?
  }

  predicate Enabled<Share>(s: State<Share>, a: Action<Share>) {
    match a
    case Push(_) => !s.producersDone
    case Notify(k) => s.notifies > 0 && (if AnyAsleep(s) then k < |s.submitters| && s.submitters[k].Asleep? else true)
    case Finish => !s.producersDone && s.notifies == 0
    case NotifyAll => s.notifyAll
    case Wake(k) => k < |s.submitters| && s.submitters[k].Asleep?
    case Move(k) => k < |s.submitters| && !s.submitters[k].Asleep? && !s.submitters[k].Exited?
  }

  function Woken<Share>(p: Phase<Share>): Phase<Share> { if p.Asleep? then Ready else p }

  function WakeAll<Share>(ps: seq<Phase<Share>>): seq<Phase<Share>> {
    seq(|ps|, k requires 0 <= k < |ps| => Woken(ps[k]))
  }

  function Apply<Share>(c: Config<Share>, s: State<Share>, a: Action<Share>): State<Share>
    requires Enabled(s, a)
  {
    match a
    case Push(batch) => s.(pushed := s.pushed + batch, queue := s.queue + batch, notifies := s.notifies + 1)
    case Notify(k) =>
      s.(notifies := s.notifies - 1, submitters := if AnyAsleep(s) then s.submitters[k := Ready] else s.submitters)
    case Finish => s.(producersDone := true, notifyAll := true)
    case NotifyAll => s.(notifyAll := false, submitters := WakeAll(s.submitters))
    case Wake(k) => s.(submitters := s.submitters[k := Ready])
    case Move(k) => MoveOf(c, s, k)
  }

  function MoveOf<Share>(c: Config<Share>, s: State<Share>, k: nat): State<Share>
    requires Enabled(s, Move(k))
  {
    match s.submitters[k]
    case Ready =>
      if s.queue != [] then s.(queue := s.queue[1..], submitters := s.submitters[k := Taken(s.queue[0])])
      else s.(submitters := s.submitters[k := if s.producersDone then Exited else Asleep])
    case Taken(share) =>
      if c.mode.Off? then s.(submitted := s.submitted + [share], submitters := s.submitters[k := Sent])
      else s.(checked := s.checked + 1, submitters := s.submitters[k := Checked(share)])
    case Checked(share) =>
      (match c.judge(share)
       case Pass => s.(passed := s.passed + 1, submitters := s.submitters[k := Keeping(share)])
       case Unavailable => s.(unavailable := s.unavailable + 1, submitters := s.submitters[k := Keeping(share)])
       case Reject =>
         s.(rejected := s.rejected + 1,
            submitters := s.submitters[k := if c.mode.On? then Dropping(share) else Keeping(share)]))
    case Keeping(share) => s.(submitted := s.submitted + [share], submitters := s.submitters[k := Sent])
    case Dropping(share) =>
      s.(dropped := s.dropped + 1, discarded := s.discarded + [share], submitters := s.submitters[k := Ready])
    case Sent => s.(shares := s.shares + 1, submitters := s.submitters[k := Ready])
  }

  // ---- weighing shares: every weight is conserved ----

  function Sum<Share>(xs: seq<Share>, w: Share -> nat): nat {
    if xs == [] then 0 else Sum(xs[..|xs| - 1], w) + w(xs[|xs| - 1])
  }

  lemma {:induction false} SumAppend<Share>(xs: seq<Share>, ys: seq<Share>, w: Share -> nat)
    ensures Sum(xs + ys, w) == Sum(xs, w) + Sum(ys, w)
  {
    if ys == [] {
      assert xs + ys == xs;
    } else {
      assert (xs + ys)[..|xs + ys| - 1] == xs + ys[..|ys| - 1];
      SumAppend(xs, ys[..|ys| - 1], w);
    }
  }

  lemma SumHead<Share>(xs: seq<Share>, w: Share -> nat)
    requires xs != []
    ensures Sum(xs, w) == w(xs[0]) + Sum(xs[1..], w)
  {
    assert xs == [xs[0]] + xs[1..];
    assert [xs[0]][..0] == [];
    SumAppend([xs[0]], xs[1..], w);
  }

  lemma SumOne<Share>(xs: seq<Share>, x: Share, w: Share -> nat)
    ensures Sum(xs + [x], w) == Sum(xs, w) + w(x)
  {
    assert (xs + [x])[..|xs|] == xs;
  }

  /** Where a submitter stands with its share. */
  datatype Stage = Fresh | BeingChecked | ToSend | ToDrop | ToCount

  function Weight<Share>(p: Phase<Share>, stage: Stage, w: Share -> nat): nat {
    match p
    case Taken(share) => if stage.Fresh? then w(share) else 0
    case Checked(share) => if stage.BeingChecked? then w(share) else 0
    case Keeping(share) => if stage.ToSend? then w(share) else 0
    case Dropping(share) => if stage.ToDrop? then w(share) else 0
    case Sent => if stage.ToCount? then 1 else 0
    case _ => 0
  }

  function Held<Share>(ps: seq<Phase<Share>>, stage: Stage, w: Share -> nat): nat {
    if ps == [] then 0 else Held(ps[..|ps| - 1], stage, w) + Weight(ps[|ps| - 1], stage, w)
  }

  lemma {:induction false} HeldUpdate<Share>(ps: seq<Phase<Share>>, k: nat, p: Phase<Share>, stage: Stage, w: Share -> nat)
    requires k < |ps|
    ensures Held(ps[k := p], stage, w) + Weight(ps[k], stage, w) == Held(ps, stage, w) + Weight(p, stage, w)
  {
    var n := |ps| - 1;
    if k == n {
      assert ps[k := p][..n] == ps[..n];
    } else {
      assert ps[k := p][..n] == ps[..n][k := p];
      HeldUpdate(ps[..n], k, p, stage, w);
    }
  }

  lemma {:induction false} HeldWakeAll<Share>(ps: seq<Phase<Share>>, stage: Stage, w: Share -> nat)
    ensures Held(WakeAll(ps), stage, w) == Held(ps, stage, w)
  {
    if ps != [] {
      assert WakeAll(ps)[..|ps| - 1] == WakeAll(ps[..|ps| - 1]);
      HeldWakeAll(ps[..|ps| - 1], stage, w);
    }
  }

  lemma {:induction false} HeldNone<Share>(ps: seq<Phase<Share>>, stage: Stage, w: Share -> nat)
    requires forall k :: 0 <= k < |ps| ==> ps[k].Exited?
    ensures Held(ps, stage, w) == 0
  {
    if ps != [] { HeldNone(ps[..|ps| - 1], stage, w); }
  }

  function Moving<Share>(s: State<Share>, w: Share -> nat): nat {
    Held(s.submitters, Fresh, w) + Held(s.submitters, BeingChecked, w) + Held(s.submitters, ToSend, w)
    + Held(s.submitters, ToDrop, w)
  }

  /** Pushed = queued + in flight + submitted + dropped, by any weight. */
  ghost predicate Conserved<Share>(s: State<Share>, w: Share -> nat) {
    Sum(s.pushed, w) == Sum(s.queue, w) + Moving(s, w) + Sum(s.submitted, w) + Sum(s.discarded, w)
  }

  ghost predicate MovedBy<Share>(ps: seq<Phase<Share>>, qs: seq<Phase<Share>>, was: Phase<Share>, p: Phase<Share>,
                                 stage: Stage, w: Share -> nat) {
    Held(qs, stage, w) + Weight(was, stage, w) == Held(ps, stage, w) + Weight(p, stage, w)
  }

  lemma MovedPhase<Share>(s: State<Share>, t: State<Share>, k: nat, p: Phase<Share>, w: Share -> nat)
    requires k < |s.submitters| && t.submitters == s.submitters[k := p]
    ensures MovedBy(s.submitters, t.submitters, s.submitters[k], p, Fresh, w)
    ensures MovedBy(s.submitters, t.submitters, s.submitters[k], p, BeingChecked, w)
    ensures MovedBy(s.submitters, t.submitters, s.submitters[k], p, ToSend, w)
    ensures MovedBy(s.submitters, t.submitters, s.submitters[k], p, ToDrop, w)
    ensures MovedBy(s.submitters, t.submitters, s.submitters[k], p, ToCount, w)
  {
    HeldUpdate(s.submitters, k, p, Fresh, w);
    HeldUpdate(s.submitters, k, p, BeingChecked, w);
    HeldUpdate(s.submitters, k, p, ToSend, w);
    HeldUpdate(s.submitters, k, p, ToDrop, w);
    HeldUpdate(s.submitters, k, p, ToCount, w);
  }

  lemma ConservedNext<Share>(c: Config<Share>, s: State<Share>, a: Action<Share>, w: Share -> nat)
    requires Conserved(s, w) && Enabled(s, a)
    ensures Conserved(Apply(c, s, a), w)
  {
    hide Sum, Held;
    var t := Apply(c, s, a);
    match a
    case Push(batch) =>
      SumAppend(s.pushed, batch, w);
      SumAppend(s.queue, batch, w);
    case Notify(k) =>
      if AnyAsleep(s) { MovedPhase(s, t, k, Ready, w); }
    case Finish =>
    case NotifyAll =>
      forall stage
        ensures Held(t.submitters, stage, w) == Held(s.submitters, stage, w)
      {
        HeldWakeAll(s.submitters, stage, w);
      }
    case Wake(k) => MovedPhase(s, t, k, Ready, w);
    case Move(k) => ConservedMove(c, s, k, w);
  }

  lemma ConservedMove<Share>(c: Config<Share>, s: State<Share>, k: nat, w: Share -> nat)
    requires Conserved(s, w) && Enabled(s, Move(k))
    ensures Conserved(MoveOf(c, s, k), w)
  {
    hide Conserved, MoveOf;
    match s.submitters[k]
    case Ready => ConservedTake(c, s, k, w);
    case Taken(_) => ConservedCheck(c, s, k, w);
    case Checked(_) => ConservedJudge(c, s, k, w);
    case _ => ConservedEnd(c, s, k, w);
  }

  lemma ConservedTake<Share>(c: Config<Share>, s: State<Share>, k: nat, w: Share -> nat)
    requires Conserved(s, w) && Enabled(s, Move(k)) && s.submitters[k].Ready?
    ensures Conserved(MoveOf(c, s, k), w)
  {
    hide Sum, Held;
    MovedPhase(s, MoveOf(c, s, k), k, MoveOf(c, s, k).submitters[k], w);
    if s.queue != [] { SumHead(s.queue, w); }
  }

  lemma ConservedCheck<Share>(c: Config<Share>, s: State<Share>, k: nat, w: Share -> nat)
    requires Conserved(s, w) && Enabled(s, Move(k)) && s.submitters[k].Taken?
    ensures Conserved(MoveOf(c, s, k), w)
  {
    hide Sum, Held;
    MovedPhase(s, MoveOf(c, s, k), k, MoveOf(c, s, k).submitters[k], w);
    SumOne(s.submitted, s.submitters[k].share, w);
  }

  lemma ConservedJudge<Share>(c: Config<Share>, s: State<Share>, k: nat, w: Share -> nat)
    requires Conserved(s, w) && Enabled(s, Move(k)) && s.submitters[k].Checked?
    ensures Conserved(MoveOf(c, s, k), w)
  {
    hide Sum, Held;
    MovedPhase(s, MoveOf(c, s, k), k, MoveOf(c, s, k).submitters[k], w);
  }

  lemma ConservedEnd<Share>(c: Config<Share>, s: State<Share>, k: nat, w: Share -> nat)
    requires Conserved(s, w) && Enabled(s, Move(k))
    requires s.submitters[k].Keeping? || s.submitters[k].Dropping? || s.submitters[k].Sent?
    ensures Conserved(MoveOf(c, s, k), w)
  {
    hide Sum, Held;
    MovedPhase(s, MoveOf(c, s, k), k, MoveOf(c, s, k).submitters[k], w);
    match s.submitters[k]
    case Keeping(share) => SumOne(s.submitted, share, w);
    case Dropping(share) => SumOne(s.discarded, share, w);
    case _ =>
  }

  // ---- counters ----

  function Has<Share>(c: Config<Share>, v: Verdict): Share -> nat { (x: Share) => if c.judge(x) == v then 1 else 0 }

  function One<Share>(): Share -> nat { (x: Share) => 1 }

  function CounterOf<Share>(s: State<Share>, v: Verdict): nat {
    match v
    case Pass => s.passed
    case Reject => s.rejected
    case Unavailable => s.unavailable
  }

  /** Shares whose verdict is known and counted. */
  function Judged<Share>(s: State<Share>, w: Share -> nat): nat {
    Held(s.submitters, ToSend, w) + Held(s.submitters, ToDrop, w) + Sum(s.submitted, w) + Sum(s.discarded, w)
  }

  ghost predicate Counted<Share>(c: Config<Share>, s: State<Share>) {
    Sizes(c, s) && (!c.mode.Off? ==> forall v :: CounterOf(s, v) == Judged(s, Has(c, v)))
  }

  predicate Doomed<Share>(c: Config<Share>, x: Share) { c.mode.On? && c.judge(x).Reject? }

  ghost predicate PhaseSound<Share>(c: Config<Share>, p: Phase<Share>) {
    match p
    case Checked(x) => !c.mode.Off?
    case Keeping(x) => !c.mode.Off? && !Doomed(c, x)
    case Dropping(x) => Doomed(c, x)
    case _ => true
  }

  /** Only shares rejected in mode On are dropped, and none of those is submitted. */
  ghost predicate Sound<Share>(c: Config<Share>, s: State<Share>) {
    (forall k :: 0 <= k < |s.submitters| ==> PhaseSound(c, s.submitters[k]))
    && (forall j :: 0 <= j < |s.submitted| ==> !Doomed(c, s.submitted[j]))
    && (forall j :: 0 <= j < |s.discarded| ==> Doomed(c, s.discarded[j]))
  }

  lemma SoundNext<Share>(c: Config<Share>, s: State<Share>, a: Action<Share>)
    requires Sound(c, s) && Enabled(s, a)
    ensures Sound(c, Apply(c, s, a))
  {
    hide MoveOf, PhaseSound, Doomed;
    match a
    case Move(k) => SoundMove(c, s, k);
    case _ => AwakeSound(c);
  }

  lemma AwakeSound<Share>(c: Config<Share>)
    ensures PhaseSound(c, Ready)
  {
  }

  lemma SoundMove<Share>(c: Config<Share>, s: State<Share>, k: nat)
    requires Sound(c, s) && Enabled(s, Move(k))
    ensures Sound(c, MoveOf(c, s, k))
  {
    assert PhaseSound(c, s.submitters[k]);
  }

  lemma CountedMove<Share>(c: Config<Share>, s: State<Share>, k: nat)
    requires Sound(c, s) && Counted(c, s) && Enabled(s, Move(k))
    ensures Counted(c, MoveOf(c, s, k))
  {
    hide MoveOf, Judged, Held, CounterOf, Sizes;
    assert PhaseSound(c, s.submitters[k]);
    var t := MoveOf(c, s, k);
    SizesMove(c, s, k);
    forall v | !c.mode.Off?
      ensures CounterOf(t, v) == Judged(t, Has(c, v))
    {
      if s.submitters[k].Checked? { JudgedAdd(c, s, k, v); } else { JudgedSame(c, s, k, v); }
    }
  }

  /** The totals that do not depend on verdicts. */
  ghost predicate Sizes<Share>(c: Config<Share>, s: State<Share>) {
    |s.discarded| == s.dropped && |s.submitted| == s.shares + Held(s.submitters, ToCount, One())
    && if c.mode.Off? then s.checked == s.passed == s.rejected == s.unavailable == 0
       else s.checked == s.passed + s.rejected + s.unavailable + Held(s.submitters, BeingChecked, One())
  }

  lemma SizesMove<Share>(c: Config<Share>, s: State<Share>, k: nat)
    requires Sizes(c, s) && Enabled(s, Move(k)) && PhaseSound(c, s.submitters[k])
    ensures Sizes(c, MoveOf(c, s, k))
  {
    hide MoveOf, Sizes;
    match s.submitters[k]
    case Ready => SizesEarly(c, s, k);
    case Taken(_) => SizesEarly(c, s, k);
    case Checked(_) => SizesJudge(c, s, k);
    case _ => SizesEnd(c, s, k);
  }

  lemma SizesEarly<Share>(c: Config<Share>, s: State<Share>, k: nat)
    requires Sizes(c, s) && Enabled(s, Move(k)) && (s.submitters[k].Ready? || s.submitters[k].Taken?)
    ensures Sizes(c, MoveOf(c, s, k))
  {
    hide Held;
    MovedPhase(s, MoveOf(c, s, k), k, MoveOf(c, s, k).submitters[k], One());
  }

  lemma SizesJudge<Share>(c: Config<Share>, s: State<Share>, k: nat)
    requires Sizes(c, s) && Enabled(s, Move(k)) && PhaseSound(c, s.submitters[k]) && s.submitters[k].Checked?
    ensures Sizes(c, MoveOf(c, s, k))
  {
    hide Held;
    MovedPhase(s, MoveOf(c, s, k), k, MoveOf(c, s, k).submitters[k], One());
  }

  lemma SizesEnd<Share>(c: Config<Share>, s: State<Share>, k: nat)
    requires Sizes(c, s) && Enabled(s, Move(k)) && PhaseSound(c, s.submitters[k])
    requires s.submitters[k].Keeping? || s.submitters[k].Dropping? || s.submitters[k].Sent?
    ensures Sizes(c, MoveOf(c, s, k))
  {
    hide Held;
    MovedPhase(s, MoveOf(c, s, k), k, MoveOf(c, s, k).submitters[k], One());
  }

  /** Counting a verdict makes the share a judged one. */
  lemma JudgedAdd<Share>(c: Config<Share>, s: State<Share>, k: nat, v: Verdict)
    requires Enabled(s, Move(k)) && s.submitters[k].Checked? && !c.mode.Off?
    ensures CounterOf(MoveOf(c, s, k), v) - CounterOf(s, v) == Judged(MoveOf(c, s, k), Has(c, v)) - Judged(s, Has(c, v))
  {
    hide Sum, Held;
    MovedPhase(s, MoveOf(c, s, k), k, MoveOf(c, s, k).submitters[k], Has(c, v));
  }

  lemma JudgedSame<Share>(c: Config<Share>, s: State<Share>, k: nat, v: Verdict)
    requires Enabled(s, Move(k)) && !s.submitters[k].Checked? && !c.mode.Off?
    ensures CounterOf(MoveOf(c, s, k), v) == CounterOf(s, v)
    ensures Judged(MoveOf(c, s, k), Has(c, v)) == Judged(s, Has(c, v))
  {
    hide Sum, Held;
    MovedPhase(s, MoveOf(c, s, k), k, MoveOf(c, s, k).submitters[k], Has(c, v));
    match s.submitters[k]
    case Keeping(share) => SumOne(s.submitted, share, Has(c, v));
    case Dropping(share) => SumOne(s.discarded, share, Has(c, v));
    case _ =>
  }

  /** Moves of producers and wake-ups leave every count alone. */
  lemma CountedNext<Share>(c: Config<Share>, s: State<Share>, a: Action<Share>)
    requires Sound(c, s) && Counted(c, s) && Enabled(s, a)
    ensures Counted(c, Apply(c, s, a))
  {
    hide Sum, Held, Has;
    match a
    case Move(k) => CountedMove(c, s, k);
    case _ =>
      WakeHeld(c, s, a, One());
      forall v { WakeHeld(c, s, a, Has(c, v)); }
  }

  lemma WakeHeld<Share>(c: Config<Share>, s: State<Share>, a: Action<Share>, w: Share -> nat)
    requires Enabled(s, a) && !a.Move?
    ensures forall stage :: Held(Apply(c, s, a).submitters, stage, w) == Held(s.submitters, stage, w)
  {
    forall stage
      ensures Held(Apply(c, s, a).submitters, stage, w) == Held(s.submitters, stage, w)
    {
      match a
      case Notify(k) => if AnyAsleep(s) { HeldUpdate(s.submitters, k, Ready, stage, w); }
      case NotifyAll => HeldWakeAll(s.submitters, stage, w);
      case Wake(k) => HeldUpdate(s.submitters, k, Ready, stage, w);
      case _ =>
    }
  }

  // ---- no share is left behind ----

  predicate Alert<Share>(p: Phase<Share>) { !p.Asleep? && !p.Exited? }

  /** While shares wait, a submitter is awake or about to be woken; submitters leave only after
      the last producer, with nothing left, and sleep through that only until they are told. */
  ghost predicate Attended<Share>(s: State<Share>) {
    |s.submitters| > 0
    && (s.queue != [] ==> s.notifies > 0 || exists k :: 0 <= k < |s.submitters| && Alert(s.submitters[k]))
    && (forall k :: 0 <= k < |s.submitters| ==>
          (s.submitters[k].Exited? ==> s.producersDone && s.queue == [])
          && (s.submitters[k].Asleep? && s.producersDone ==> s.notifyAll))
    && (s.producersDone ==> s.notifies == 0)
  }

  lemma AttendedNext<Share>(c: Config<Share>, s: State<Share>, a: Action<Share>)
    requires Attended(s) && Enabled(s, a)
    ensures Attended(Apply(c, s, a))
  {
    hide MoveOf, Alert;
    var t := Apply(c, s, a);
    if t.queue != [] && t.notifies == 0 {
      AwakeNext(c, s, a);
    }
    if a.Move? { LeavesInTime(c, s, a.k); }
  }

  /** A submitter's own move keeps to the rules on leaving and sleeping. */
  lemma LeavesInTime<Share>(c: Config<Share>, s: State<Share>, k: nat)
    requires Attended(s) && Enabled(s, Move(k))
    ensures var t := MoveOf(c, s, k);
            |t.submitters| == |s.submitters| && t.producersDone == s.producersDone && t.notifies == s.notifies
            && forall j :: 0 <= j < |t.submitters| ==>
                 (t.submitters[j].Exited? ==> t.producersDone && t.queue == [])
                     && (t.submitters[j].Asleep? && t.producersDone ==> t.notifyAll)
  {
    hide Alert;
  }

  lemma AwakeNext<Share>(c: Config<Share>, s: State<Share>, a: Action<Share>)
    requires Attended(s) && Enabled(s, a) && Apply(c, s, a).queue != [] && Apply(c, s, a).notifies == 0
    ensures exists k :: 0 <= k < |Apply(c, s, a).submitters| && Alert(Apply(c, s, a).submitters[k])
  {
    var t := Apply(c, s, a);
    if a.Notify? {
      assert Alert(t.submitters[if AnyAsleep(s) then a.k else 0]);
    } else {
      var k :| 0 <= k < |s.submitters| && Alert(s.submitters[k]);
      AlertStays(c, s, a, k);
    }
  }

  lemma AlertStays<Share>(c: Config<Share>, s: State<Share>, a: Action<Share>, k: nat)
    requires Enabled(s, a) && Apply(c, s, a).queue != [] && k < |s.submitters| && Alert(s.submitters[k])
    ensures k < |Apply(c, s, a).submitters| && Alert(Apply(c, s, a).submitters[k])
  {
    hide MoveOf;
    if a.Move? { AlertMoves(c, s, a.k, k); }
  }

  lemma AlertMoves<Share>(c: Config<Share>, s: State<Share>, j: nat, k: nat)
    requires Enabled(s, Move(j)) && MoveOf(c, s, j).queue != [] && k < |s.submitters| && Alert(s.submitters[k])
    ensures k < |MoveOf(c, s, j).submitters| && Alert(MoveOf(c, s, j).submitters[k])
  {
  }

  // ---- whole runs ----

  function Init<Share>(threads: nat): State<Share> {
    State([], [], seq(threads, _ => Ready), [], [], 0, false, false, 0, 0, 0, 0, 0, 0)
  }

  datatype Option<+T> = None | Some(value: T)

  function Exec<Share>(c: Config<Share>, s0: State<Share>, acts: seq<Action<Share>>): Option<State<Share>> {
    if acts == [] then Some(s0)
    else
      var before := Exec(c, s0, acts[..|acts| - 1]);
      if before.Some? && Enabled(before.value, acts[|acts| - 1]) then Some(Apply(c, before.value, acts[|acts| - 1])) else None
  }

  lemma {:induction false} HeldFresh<Share>(threads: nat, stage: Stage, w: Share -> nat)
    ensures Held(seq(threads, _ => Ready), stage, w) == 0
  {
    if threads > 0 {
      assert seq(threads, _ => Ready)[..threads - 1] == seq<Phase<Share>>(threads - 1, _ => Ready);
      HeldFresh(threads - 1, stage, w);
    }
  }

  lemma NothingHeld<Share>(threads: nat, w: Share -> nat)
    ensures forall stage :: Held(Init<Share>(threads).submitters, stage, w) == 0
  {
    forall stage
      ensures Held(Init<Share>(threads).submitters, stage, w) == 0
    {
      HeldFresh(threads, stage, w);
    }
  }

  lemma InitGood<Share>(c: Config<Share>, threads: nat, w: Share -> nat)
    requires threads > 0
    ensures Sound(c, Init(threads)) && Counted(c, Init(threads)) && Attended(Init<Share>(threads)) && Conserved(Init(threads), w)
  {
    NothingHeld(threads, w);
    NothingHeld(threads, One<Share>());
    forall v
      ensures Judged(Init(threads), Has(c, v)) == 0
    {
      NothingHeld(threads, Has(c, v));
    }
    assert Alert(Init<Share>(threads).submitters[0]);
  }

  /** Over every interleaving: no share is lost, duplicated or invented, only shares rejected in
      mode On are dropped, the counters agree with what happened, and no share is left waiting. */
  lemma {:induction false} EveryRun<Share>(c: Config<Share>, threads: nat, acts: seq<Action<Share>>, w: Share -> nat)
    requires threads > 0 && Exec(c, Init(threads), acts).Some?
    ensures var s := Exec(c, Init(threads), acts).value;
            Sound(c, s) && Counted(c, s) && Attended(s) && Conserved(s, w)
  {
    hide Sound, Counted, Attended, Conserved, Apply, Enabled, Init;
    if acts == [] {
      InitGood(c, threads, w);
    } else {
      var k := |acts| - 1;
      EveryRun(c, threads, acts[..k], w);
      var s := Exec(c, Init(threads), acts[..k]).value;
      SoundNext(c, s, acts[k]);
      CountedNext(c, s, acts[k]);
      AttendedNext(c, s, acts[k]);
      ConservedNext(c, s, acts[k], w);
    }
  }

  /** How many of the shares have verdict `v`. */
  function Total<Share>(c: Config<Share>, xs: seq<Share>, v: Verdict): nat { Sum(xs, Has(c, v)) }

  ghost predicate AllExited<Share>(s: State<Share>) {
    forall k :: 0 <= k < |s.submitters| ==> s.submitters[k].Exited?
  }

  lemma AllSettled<Share>(s: State<Share>, w: Share -> nat)
    requires AllExited(s)
    ensures Moving(s, w) == 0 && Judged(s, w) == Sum(s.submitted, w) + Sum(s.discarded, w)
    ensures Held(s.submitters, ToCount, w) == 0
  {
    forall stage { HeldNone(s.submitters, stage, w); }
  }

  lemma {:induction false} SumOfVerdicts<Share>(c: Config<Share>, xs: seq<Share>)
    ensures Total(c, xs, Pass) + Total(c, xs, Reject) + Total(c, xs, Unavailable) == |xs|
  {
    if xs != [] { SumOfVerdicts(c, xs[..|xs| - 1]); }
  }

  lemma {:induction false} RejectsIn<Share>(c: Config<Share>, xs: seq<Share>, all: bool)
    requires forall j :: 0 <= j < |xs| ==> c.judge(xs[j]).Reject? == all
    ensures Total(c, xs, Reject) == if all then |xs| else 0
  {
    if xs != [] { RejectsIn(c, xs[..|xs| - 1], all); }
  }

  /** Once every submitter has returned, the queue is empty and each pushed share was submitted or
      dropped exactly once. */
  lemma Drained<Share>(c: Config<Share>, threads: nat, acts: seq<Action<Share>>, w: Share -> nat)
    requires threads > 0 && Exec(c, Init(threads), acts).Some? && AllExited(Exec(c, Init(threads), acts).value)
    ensures var s := Exec(c, Init(threads), acts).value;
            s.producersDone && s.queue == [] && Sum(s.pushed, w) == Sum(s.submitted, w) + Sum(s.discarded, w)
  {
    EveryRun(c, threads, acts, w);
    AllSettled(Exec(c, Init(threads), acts).value, w);
  }

  /** Then the counters hold the totals, and the dropped shares are exactly those rejected in
      mode On. */
  lemma FinalCounts<Share>(c: Config<Share>, threads: nat, acts: seq<Action<Share>>)
    requires threads > 0 && Exec(c, Init(threads), acts).Some? && AllExited(Exec(c, Init(threads), acts).value)
    ensures var s := Exec(c, Init(threads), acts).value;
            (forall j :: 0 <= j < |s.discarded| ==> Doomed(c, s.discarded[j]))
            && (forall j :: 0 <= j < |s.submitted| ==> !Doomed(c, s.submitted[j]))
            && s.shares == |s.submitted| && s.dropped == |s.discarded| == (if c.mode.On? then Total(c, s.pushed, Reject) else 0)
            && (!c.mode.Off? ==> s.passed == Total(c, s.pushed, Pass) && s.rejected == Total(c, s.pushed, Reject)
                                 && s.unavailable == Total(c, s.pushed, Unavailable) && s.checked == |s.pushed|)
  {
    hide Exec, Sum, Held, Attended, Has, One;
    var s := Exec(c, Init(threads), acts).value;
    EveryRun(c, threads, acts, One());
    AllSettled(s, One());
    HeldNone(s.submitters, BeingChecked, One<Share>());
    forall v
      ensures Total(c, s.pushed, v) == Total(c, s.submitted, v) + Total(c, s.discarded, v) == Judged(s, Has(c, v))
    {
      Drained(c, threads, acts, Has(c, v));
      AllSettled(s, Has(c, v));
    }
    SumOfVerdicts(c, s.pushed);
    if c.mode.On? {
      RejectsIn(c, s.submitted, false);
      RejectsIn(c, s.discarded, true);
    }
    assert s.discarded != [] ==> Doomed(c, s.discarded[0]);
  }

  // ---- the shutdown ends ----

  /** Moves a submitter still has ahead of it, at most, if it takes no further share. */
  function Ahead<Share>(p: Phase<Share>): nat {
    match p
    case Exited => 0
    case Ready => 1
    case Asleep => 2
    case Sent => 2
    case Dropping(_) => 2
    case Keeping(_) => 3
    case Checked(_) => 4
    case Taken(_) => 5
  }

  function AheadAll<Share>(ps: seq<Phase<Share>>): nat {
    if ps == [] then 0 else AheadAll(ps[..|ps| - 1]) + Ahead(ps[|ps| - 1])
  }

  /** A bound on the moves left once the producers are done. */
  function MovesLeft<Share>(s: State<Share>): nat {
    5 * |s.queue| + AheadAll(s.submitters) + (if s.notifyAll then 1 else 0)
  }

  lemma {:induction false} AheadUpdate<Share>(ps: seq<Phase<Share>>, k: nat, p: Phase<Share>)
    requires k < |ps|
    ensures AheadAll(ps[k := p]) + Ahead(ps[k]) == AheadAll(ps) + Ahead(p)
  {
    var n := |ps| - 1;
    if k == n {
      assert ps[k := p][..n] == ps[..n];
    } else {
      assert ps[k := p][..n] == ps[..n][k := p];
      AheadUpdate(ps[..n], k, p);
    }
  }

  lemma {:induction false} AheadWakeAll<Share>(ps: seq<Phase<Share>>)
    ensures AheadAll(WakeAll(ps)) <= AheadAll(ps)
  {
    if ps != [] {
      assert WakeAll(ps)[..|ps| - 1] == WakeAll(ps[..|ps| - 1]);
      AheadWakeAll(ps[..|ps| - 1]);
    }
  }

  lemma {:induction false} AheadAtMost<Share>(ps: seq<Phase<Share>>)
    ensures AheadAll(ps) <= 5 * |ps|
  {
    if ps != [] { AheadAtMost(ps[..|ps| - 1]); }
  }

  lemma MoveShrinks<Share>(c: Config<Share>, s: State<Share>, k: nat)
    requires s.producersDone && Enabled(s, Move(k))
    ensures MoveOf(c, s, k).producersDone && MoveOf(c, s, k).notifies == s.notifies && MovesLeft(MoveOf(c, s, k)) < MovesLeft(s)
  {
    var t := MoveOf(c, s, k);
    AheadUpdate(s.submitters, k, t.submitters[k]);
    hide AheadAll;
  }

  /** After the last producer every move brings the end nearer, spurious wake-ups included. */
  lemma ShutdownShrinks<Share>(c: Config<Share>, s: State<Share>, a: Action<Share>)
    requires s.producersDone && s.notifies == 0 && Enabled(s, a)
    ensures Apply(c, s, a).producersDone && Apply(c, s, a).notifies == 0 && MovesLeft(Apply(c, s, a)) < MovesLeft(s)
  {
    hide MoveOf, AheadAll;
    match a
    case NotifyAll => AheadWakeAll(s.submitters);
    case Wake(k) => AheadUpdate(s.submitters, k, Ready);
    case Move(k) => MoveShrinks(c, s, k);
    case _ =>
  }

  /** And until all have returned some thread can move. */
  lemma ShutdownNeverStuck<Share>(s: State<Share>) returns (a: Action<Share>)
    requires Attended(s) && s.producersDone && !AllExited(s)
    ensures Enabled(s, a)
  {
    if s.notifyAll { return NotifyAll; }
    var k :| 0 <= k < |s.submitters| && !s.submitters[k].Exited?;
    return Move(k);
  }

  lemma {:induction false} ShutdownBounded<Share>(c: Config<Share>, s: State<Share>, acts: seq<Action<Share>>)
    requires s.producersDone && s.notifies == 0 && Exec(c, s, acts).Some?
    ensures var t := Exec(c, s, acts).value;
            t.producersDone && t.notifies == 0 && |acts| + MovesLeft(t) <= MovesLeft(s)
  {
    hide Apply, Enabled, MovesLeft;
    if acts != [] {
      var k := |acts| - 1;
      ShutdownBounded(c, s, acts[..k]);
      ShutdownShrinks(c, Exec(c, s, acts[..k]).value, acts[k]);
    }
  }

  /** From any reachable state after the last producer, every run of moves is finite, and one that
      cannot be continued has all submitters returned: the joins end, having taken at most five
      moves for each queued share and each submitter, and one for the broadcast. */
  lemma JoinsEnd<Share>(c: Config<Share>, threads: nat, acts: seq<Action<Share>>, more: seq<Action<Share>>)
    requires threads > 0 && Exec(c, Init(threads), acts).Some? && Exec(c, Init(threads), acts).value.producersDone
    requires Exec(c, Exec(c, Init(threads), acts).value, more).Some?
    ensures var s := Exec(c, Init(threads), acts).value;
            var t := Exec(c, s, more).value;
            |more| <= 5 * |s.queue| + 5 * |s.submitters| + 1 && (AllExited(t) || exists a :: Enabled(t, a))
  {
    hide Exec, Enabled;
    var s := Exec(c, Init(threads), acts).value;
    EveryRun(c, threads, acts, One());
    AttendedAll(c, s, more);
    ShutdownBounded(c, s, more);
    AheadAtMost(s.submitters);
    var t := Exec(c, s, more).value;
    if !AllExited(t) { var a := ShutdownNeverStuck(t); }
  }

  lemma {:induction false} AttendedAll<Share>(c: Config<Share>, s: State<Share>, acts: seq<Action<Share>>)
    requires Attended(s) && Exec(c, s, acts).Some?
    ensures Attended(Exec(c, s, acts).value)
  {
    hide Attended, Apply, Enabled;
    if acts != [] {
      var k := |acts| - 1;
      AttendedAll(c, s, acts[..k]);
      AttendedNext(c, Exec(c, s, acts[..k]).value, acts[k]);
    }
  }

  // ---- first in, first out ----

  /** The shares handed in by a run, in order. */
  function HandedIn<Share>(acts: seq<Action<Share>>): seq<Share> {
    if acts == [] then []
    else HandedIn(acts[..|acts| - 1]) + (if acts[|acts| - 1].Push? then acts[|acts| - 1].batch else [])
  }

  /** The shares that submitters come to hold, in the order they took them. */
  function TakenOut<Share>(c: Config<Share>, s0: State<Share>, acts: seq<Action<Share>>): seq<Share> {
    if acts == [] then []
    else
      var front, a := acts[..|acts| - 1], acts[|acts| - 1];
      var before, after := Exec(c, s0, front), Exec(c, s0, acts);
      TakenOut(c, s0, front)
      + if before.Some? && after.Some? && a.Move? && a.k < |before.value.submitters| && a.k < |after.value.submitters|
           && before.value.submitters[a.k].Ready? && after.value.submitters[a.k].Taken?
        then [after.value.submitters[a.k].share] else []
  }

  lemma QueueMoves<Share>(c: Config<Share>, s: State<Share>, k: nat)
    requires Enabled(s, Move(k))
    ensures var t := MoveOf(c, s, k);
            |t.submitters| == |s.submitters| && t.pushed == s.pushed
            && if s.submitters[k].Ready? && s.queue != []
               then t.submitters[k] == Taken(s.queue[0]) && [s.queue[0]] + t.queue == s.queue
               else t.queue == s.queue && !(s.submitters[k].Ready? && t.submitters[k].Taken?)
  {
  }

  /** What was taken out, in order, and then the queue are what was handed in, in order. */
  lemma {:induction false} FirstInFirstOut<Share>(c: Config<Share>, threads: nat, acts: seq<Action<Share>>)
    requires Exec(c, Init(threads), acts).Some?
    ensures var s := Exec(c, Init(threads), acts).value;
            s.pushed == HandedIn(acts) && s.pushed == TakenOut(c, Init(threads), acts) + s.queue
  {
    hide MoveOf;
    if acts != [] {
      var front, a := acts[..|acts| - 1], acts[|acts| - 1];
      FirstInFirstOut(c, threads, front);
      var s := Exec(c, Init(threads), front).value;
      var before := TakenOut(c, Init(threads), front);
      match a
      case Push(batch) => assert (before + s.queue) + batch == before + (s.queue + batch);
      case Move(k) =>
        QueueMoves(c, s, k);
        if s.queue != [] { assert before + ([s.queue[0]] + s.queue[1..]) == (before + [s.queue[0]]) + s.queue[1..]; }
      case _ =>
    }
  }
}
