/** The persistent batch: requests sit at indices of parallel arrays; removals leave holes, which
    additions fill and condensing closes. */
module InputBatch {

  datatype Option<+T> = None | Some(value: T)

  datatype Sampling = Sampling(temperature: real, topP: real, topK: int, frequency: real, presence: real, repetition: real)

  /** The arrays' entries at one index; `masked` is the row of disallowed tokens. */
  datatype Row = Row(tokens: seq<int>, isToken: seq<bool>, numTokens: nat, numPrompt: nat, numComputed: nat, sampling: Sampling,
                     accepted: nat, lora: int, blocks: seq<nat>, masked: seq<bool>)

  datatype Move = Down(from: nat, to: nat) | Swap(a: nat, b: nat)

  datatype State = State(
    reqIds: seq<Option<int>>, index: map<int, nat>, outputs: seq<Option<seq<int>>>, spec: seq<seq<int>>, rows: seq<Row>,
    embeds: map<nat, int>, generators: map<nat, int>, badWords: map<nat, int>, removed: seq<nat>, moved: seq<Move>)

  // ---- what one request sees ----

  /** All that belongs to the request at an index, prompt embeddings apart. */
  datatype View = View(outputs: Option<seq<int>>, spec: seq<int>, tokens: seq<int>, isToken: seq<bool>, numTokens: nat,
                       numPrompt: nat,
                       numComputed: nat, sampling: Sampling, accepted: nat, lora: int, blocks: seq<nat>, masked: seq<bool>,
                       generator: Option<int>, badWords: Option<int>)

  function Get(m: map<nat, int>, i: nat): Option<int> { if i in m then Some(m[i]) else None }

  function Put(m: map<nat, int>, i: nat, v: Option<int>): map<nat, int> {
    match v case Some(x) => m[i := x] case None => m - {i}
  }

  function Upto<T>(s: seq<T>, n: nat): seq<T> { if n <= |s| then s[..n] else s }

  /** `dst[:n] = src[:n]`, slices ending where the arrays do. */
  function Overwrite<T>(dst: seq<T>, src: seq<T>, n: nat): (r: seq<T>)
    ensures |dst| == |src| ==> |r| == |dst| && Upto(r, n) == Upto(src, n)
  {
    if |dst| == |src| && n <= |src| then src[..n] + dst[n..] else src
  }

  function ActiveTokens(s: State, i: nat): nat
    requires i < |s.rows| && i < |s.spec|
  {
    s.rows[i].numTokens + |s.spec[i]|
  }

  function ViewAt(s: State, i: nat): View
    requires i < |s.rows| && i < |s.spec| && i < |s.outputs|
  {
    var r, n := s.rows[i], ActiveTokens(s, i);
    View(s.outputs[i], s.spec[i], Upto(r.tokens, n), Upto(r.isToken, n), r.numTokens, r.numPrompt, r.numComputed, r.sampling,
         r.accepted, r.lora, r.blocks, r.masked, Get(s.generators, i), Get(s.badWords, i))
  }

  // ---- the invariant ----

  ghost predicate Descending(xs: seq<nat>) {
    forall i, j :: 0 <= i < j < |xs| ==> xs[i] > xs[j]
  }

  /** Ids and indices are inverse to each other. */
  ghost predicate Inverse(reqIds: seq<Option<int>>, index: map<int, nat>) {
    (forall id :: id in index ==> index[id] < |reqIds| && reqIds[index[id]] == Some(id))
    && forall i: nat :: i < |reqIds| && reqIds[i].Some? ==> reqIds[i].value in index && index[reqIds[i].value] == i
  }

  ghost predicate Live(reqIds: seq<Option<int>>, i: nat) { i < |reqIds| && reqIds[i].Some? }

  ghost predicate Sized(s: State, max: nat) {
    |s.outputs| == |s.reqIds| <= |s.spec| && |s.reqIds| <= max == |s.rows|
    && forall i, j :: 0 <= i < max && 0 <= j < max ==>
         |s.rows[i].tokens| == |s.rows[j].tokens| == |s.rows[i].isToken| && |s.rows[i].masked| == |s.rows[j].masked|
  }

  /** Per-index records belong to live requests; vacant indices hold no speculative tokens. */
  ghost predicate Owned(s: State) {
    (forall i :: i in s.generators ==> Live(s.reqIds, i)) && (forall i :: i in s.badWords ==> Live(s.reqIds, i))
    && forall i: nat :: i < |s.spec| && !Live(s.reqIds, i) ==> s.spec[i] == []
  }

  /** The holes are exactly the removed indices. */
  ghost predicate Holes(reqIds: seq<Option<int>>, removed: seq<nat>) {
    Descending(removed) && (forall j :: 0 <= j < |removed| ==> removed[j] < |reqIds|)
    && forall i: nat :: i < |reqIds| ==> (reqIds[i].None? <==> i in removed)
  }

  ghost predicate Valid(s: State, max: nat) {
    Sized(s, max) && Inverse(s.reqIds, s.index) && Owned(s) && Holes(s.reqIds, s.removed) && |s.reqIds| == |s.index| + |s.removed|
  }

  // ---- one condensing move ----

  function MovedRow(dst: Row, src: Row, n: nat): Row {
    src.(tokens := Overwrite(dst.tokens, src.tokens, n), isToken := Overwrite(dst.isToken, src.isToken, n))
  }

  /** The request at `last` goes down to the hole `empty`. */
  function MovedDown(s: State, last: nat, empty: nat): State
    requires empty < last < |s.reqIds| && |s.reqIds| == |s.outputs| <= |s.spec| && last < |s.rows| && s.reqIds[last].Some?
    requires s.removed != []
  {
    State(s.reqIds[empty := s.reqIds[last]][last := None], s.index[s.reqIds[last].value := empty],
          s.outputs[empty := s.outputs[last]][last := None], s.spec[empty := s.spec[last]][last := []],
          s.rows[empty := MovedRow(s.rows[empty], s.rows[last], ActiveTokens(s, last))],
          if last in s.embeds then (s.embeds - {last})[empty := s.embeds[last]] else s.embeds,
          if last in s.generators then (s.generators - {last})[empty := s.generators[last]] else s.generators,
          if last in s.badWords then (s.badWords - {last})[empty := s.badWords[last]] else s.badWords,
          s.removed[..|s.removed| - 1], s.moved + [Down(last, empty)])
  }

  /** What holds while holes are being closed: those above `last` are done with. */
  ghost predicate Condensing(s: State, max: nat, last: nat, done: nat) {
    Sized(s, max) && Inverse(s.reqIds, s.index) && Owned(s)
    && last < |s.reqIds| && done <= |s.removed| && Descending(s.removed)
    && (forall j :: 0 <= j < |s.removed| ==> (s.removed[j] > last <==> j < done))
    && (forall i: nat :: i < |s.reqIds| ==> (s.reqIds[i].None? <==> i > last || i in s.removed))
    && last + 1 == |s.index| + (|s.removed| - done)
  }

  lemma DropLast(xs: seq<nat>)
    requires Descending(xs) && xs != []
    ensures Descending(xs[..|xs| - 1]) && forall x :: x in xs[..|xs| - 1] <==> x in xs && x != xs[|xs| - 1]
  {
    var front, x := xs[..|xs| - 1], xs[|xs| - 1];
    assert xs == front + [x];
    assert forall j :: 0 <= j < |front| ==> front[j] == xs[j] > x;
  }

  lemma MoveInverse(s: State, max: nat, last: nat, done: nat)
    requires Condensing(s, max, last, done) && s.removed != [] && s.reqIds[last].Some? && s.removed[|s.removed| - 1] < last
    ensures var t := MovedDown(s, last, s.removed[|s.removed| - 1]);
            Inverse(t.reqIds, t.index) && |t.index| == |s.index| && t.index.Keys == s.index.Keys
  {
  }

  lemma MoveSized(s: State, max: nat, last: nat, empty: nat)
    requires Sized(s, max) && empty < last < |s.reqIds| && s.reqIds[last].Some? && s.removed != []
    ensures Sized(MovedDown(s, last, empty), max)
  {
  }

  lemma MoveOwned(s: State, max: nat, last: nat, done: nat)
    requires Condensing(s, max, last, done) && s.removed != [] && s.reqIds[last].Some? && s.removed[|s.removed| - 1] < last
    ensures Owned(MovedDown(s, last, s.removed[|s.removed| - 1]))
  {
    hide Sized, Inverse;
    SizedOf(s, max);
  }

  lemma SizedOf(s: State, max: nat)
    requires Sized(s, max)
    ensures |s.outputs| == |s.reqIds| <= |s.spec| && |s.reqIds| <= max == |s.rows|
  {
  }

  lemma MoveKeeps(s: State, max: nat, last: nat, done: nat)
    requires Condensing(s, max, last, done) && s.removed != [] && s.reqIds[last].Some? && s.removed[|s.removed| - 1] < last
    ensures Condensing(MovedDown(s, last, s.removed[|s.removed| - 1]), max, last - 1, done)
  {
    hide Sized, Inverse, Owned, Overwrite, MovedRow;
    SlideReady(s, max, last, done);
    var empty := s.removed[|s.removed| - 1];
    assert empty in s.removed;
    MoveInverse(s, max, last, done);
    MoveSized(s, max, last, empty);
    MoveOwned(s, max, last, done);
    DropLast(s.removed);
  }

  lemma ViewMoved(s: State, max: nat, last: nat, empty: nat)
    requires Sized(s, max) && Owned(s) && empty < last < |s.reqIds| && s.reqIds[last].Some? && s.reqIds[empty].None?
             && s.removed != []
    ensures ViewAt(MovedDown(s, last, empty), empty) == ViewAt(s, last)
  {
    RowLengths(s, max, last, empty);
    hide Overwrite;
  }

  lemma ViewStays(s: State, max: nat, last: nat, empty: nat, i: nat)
    requires Sized(s, max) && empty < last < |s.reqIds| && s.reqIds[last].Some? && s.removed != []
    requires i < |s.reqIds| && i != last && i != empty
    ensures ViewAt(MovedDown(s, last, empty), i) == ViewAt(s, i)
  {
  }

  /** Every request keeps its view when one of them moves down. */
  lemma MoveViews(s: State, max: nat, last: nat, done: nat, id: int)
    requires Condensing(s, max, last, done) && s.removed != [] && s.reqIds[last].Some? && s.removed[|s.removed| - 1] < last
    requires id in s.index
    ensures var t := MovedDown(s, last, s.removed[|s.removed| - 1]);
            id in t.index && t.index[id] < |t.outputs| && t.index[id] < |t.rows| && t.index[id] < |t.spec|
            && s.index[id] < |s.outputs| && ViewAt(t, t.index[id]) == ViewAt(s, s.index[id])
            && t.index[id] == if s.index[id] == last then s.removed[|s.removed| - 1] else s.index[id]
  {
    hide ViewAt, Sized, Owned;
    var empty := s.removed[|s.removed| - 1];
    assert empty in s.removed;
    assert s.reqIds[s.index[id]] == Some(id);
    SizedOf(s, max);
    if s.index[id] == last { ViewMoved(s, max, last, empty); } else { ViewStays(s, max, last, empty, s.index[id]); }
  }

  lemma RowLengths(s: State, max: nat, last: nat, empty: nat)
    requires Sized(s, max) && last < |s.reqIds| && empty < |s.reqIds|
    ensures var src, dst, n := s.rows[last], s.rows[empty], ActiveTokens(s, last);
            Upto(MovedRow(dst, src, n).tokens, n) == Upto(src.tokens, n)
                && Upto(MovedRow(dst, src, n).isToken, n) == Upto(src.isToken, n)
  {
  }

  // ---- the whole of condensing ----

  /** What a list of moves does to a layout. */
  function Replay(ids: seq<Option<int>>, log: seq<Move>): (r: seq<Option<int>>)
    ensures |r| == |ids|
  {
    if log == [] then ids
    else
      var before := Replay(ids, log[..|log| - 1]);
      match log[|log| - 1]
      case Down(from, to) => if from < |ids| && to < |ids| then before[to := before[from]][from := None] else before
      case Swap(a, b) => if a < |ids| && b < |ids| then before[a := before[b]][b := before[a]] else before
  }

  lemma ReplayOne(ids: seq<Option<int>>, log: seq<Move>, last: nat, empty: nat)
    requires last < |ids| && empty < |ids|
    ensures Replay(ids, log + [Down(last, empty)]) == Replay(ids, log)[empty := Replay(ids, log)[last]][last := None]
  {
    assert (log + [Down(last, empty)])[..|log|] == log;
  }

  ghost predicate Indexed(s: State, id: int) {
    id in s.index && s.index[id] < |s.rows| && s.index[id] < |s.spec| && s.index[id] < |s.outputs|
  }

  /** The embeddings found for a request now at `i`: its own, or else what the hole still held. */
  function Inherited(s0: State, id: int, i: nat): Option<int>
    requires id in s0.index
  {
    if i != s0.index[id] && s0.index[id] !in s0.embeds then Get(s0.embeds, i) else Get(s0.embeds, s0.index[id])
  }

  /** The request's view is the same, and it moved only from beyond the final size. */
  ghost predicate Followed(s0: State, s: State, id: int) {
    Indexed(s0, id) && Indexed(s, id) && ViewAt(s, s.index[id]) == ViewAt(s0, s0.index[id])
    && (s.index[id] == s0.index[id] || (s.index[id] < |s0.index| <= s0.index[id] && s.index[id] in s0.removed))
  }

  ghost predicate EmbedsFollow(s0: State, s: State) {
    (forall id :: id in s.index ==> id in s0.index && Get(s.embeds, s.index[id]) == Inherited(s0, id, s.index[id]))
    && forall j :: 0 <= j < |s.removed| ==> Get(s.embeds, s.removed[j]) == Get(s0.embeds, s.removed[j])
  }

  /** The move log turns the old layout into the present one. */
  ghost predicate Logged(s0: State, s: State) {
    |s0.moved| <= |s.moved| && s.moved[..|s0.moved|] == s0.moved && s.reqIds == Replay(s0.reqIds, s.moved[|s0.moved|..])
  }

  /** Rows from the final size on are as they were, whatever they held. */
  ghost predicate RowsBeyond(s0: State, s: State) {
    |s.rows| == |s0.rows| && forall i :: |s0.index| <= i < |s.rows| ==> s.rows[i] == s0.rows[i]
  }

  ghost predicate Sliding(s0: State, s: State, max: nat, last: nat, done: nat) {
    Condensing(s, max, last, done) && s.index.Keys == s0.index.Keys && |s.index| == |s0.index| && Logged(s0, s)
        && RowsBeyond(s0, s)
    && (forall id :: id in s.index ==> Followed(s0, s, id)) && EmbedsFollow(s0, s)
    && (forall j :: 0 <= j < |s.removed| ==> s.removed[j] in s0.removed)
  }

  lemma SlideStarts(s: State, max: nat)
    requires Valid(s, max) && |s.index| > 0
    ensures Sliding(s, s, max, |s.reqIds| - 1, 0)
  {
    hide ViewAt;
    assert s.moved[|s.moved|..] == [];
    forall id | id in s.index
      ensures Followed(s, s, id)
    {
    }
  }

  lemma MoveLogged(s0: State, s: State, last: nat, empty: nat)
    requires Logged(s0, s) && empty < last < |s.reqIds| && |s.reqIds| == |s.outputs| <= |s.spec| && last < |s.rows|
             && s.reqIds[last].Some?
    requires s.removed != []
    ensures Logged(s0, MovedDown(s, last, empty))
  {
    var log := s.moved[|s0.moved|..];
    assert (s.moved + [Down(last, empty)])[|s0.moved|..] == log + [Down(last, empty)];
    ReplayOne(s0.reqIds, log, last, empty);
  }

  lemma SlideOne(s0: State, s: State, max: nat, last: nat, done: nat)
    requires Sliding(s0, s, max, last, done) && s.removed != [] && s.reqIds[last].Some? && s.removed[|s.removed| - 1] < last
    ensures Sliding(s0, MovedDown(s, last, s.removed[|s.removed| - 1]), max, last - 1, done)
  {
    hide ViewAt, Followed, Condensing, Logged, EmbedsFollow, MovedDown;
    SlideReady(s, max, last, done);
    var empty := s.removed[|s.removed| - 1];
    MoveKeeps(s, max, last, done);
    MoveInverse(s, max, last, done);
    MoveLogged(s0, s, last, empty);
    MoveRest(s0, s, max, last, done);
    MoveEmbeds(s0, s, max, last, done);
    forall id | id in s.index
      ensures Followed(s0, MovedDown(s, last, empty), id)
    {
      MoveFollowed(s0, s, max, last, done, id);
    }
  }

  lemma SlideReady(s: State, max: nat, last: nat, done: nat)
    requires Condensing(s, max, last, done)
    ensures last < |s.reqIds| && |s.reqIds| == |s.outputs| <= |s.spec| && last < |s.rows|
  {
    hide Inverse, Owned, Descending;
  }

  lemma MoveRest(s0: State, s: State, max: nat, last: nat, done: nat)
    requires Sliding(s0, s, max, last, done) && s.removed != [] && s.reqIds[last].Some? && s.removed[|s.removed| - 1] < last
    ensures var t := MovedDown(s, last, s.removed[|s.removed| - 1]);
            RowsBeyond(s0, t) && forall j :: 0 <= j < |t.removed| ==> t.removed[j] in s0.removed
  {
    hide ViewAt, Followed, Logged, EmbedsFollow, Inverse, Owned, Descending;
    Above(s, max, last, done);
  }

  lemma MoveEmbeds(s0: State, s: State, max: nat, last: nat, done: nat)
    requires Sliding(s0, s, max, last, done) && s.removed != [] && s.reqIds[last].Some? && s.removed[|s.removed| - 1] < last
    ensures EmbedsFollow(s0, MovedDown(s, last, s.removed[|s.removed| - 1]))
  {
    var empty, mover := s.removed[|s.removed| - 1], s.reqIds[last].value;
    Above(s, max, last, done);
    assert empty in s.removed;
    assert Followed(s0, s, mover) && s0.index[mover] == last;
    hide ViewAt, Logged, RowsBeyond, Sized, Followed, Owned, Descending;
    EmbedsMove(s0, s, last, empty);
  }

  lemma EmbedsMove(s0: State, s: State, last: nat, empty: nat)
    requires EmbedsFollow(s0, s) && Inverse(s.reqIds, s.index) && s.removed != [] && empty == s.removed[|s.removed| - 1]
    requires empty < last < |s.reqIds| && |s.reqIds| == |s.outputs| <= |s.spec| && last < |s.rows|
             && s.reqIds[last].Some? && s.reqIds[empty].None?
    requires s0.index.Keys == s.index.Keys && s0.index[s.reqIds[last].value] == last && Descending(s.removed)
             && last !in s.removed
    ensures EmbedsFollow(s0, MovedDown(s, last, empty))
  {
    var t := MovedDown(s, last, empty);
    assert forall j :: 0 <= j < |t.removed| ==>
             t.removed[j] == s.removed[j] && s.removed[j] in s.removed && s.removed[j] != empty;
    assert Get(s.embeds, empty) == Get(s0.embeds, empty);
    forall id | id in t.index
      ensures id in s0.index && Get(t.embeds, t.index[id]) == Inherited(s0, id, t.index[id])
    {
      assert s.reqIds[s.index[id]] == Some(id);
      if id != s.reqIds[last].value { assert s.index[id] != last && s.index[id] != empty; }
    }
  }

  lemma {:induction false} DescendingGap(xs: seq<nat>, i: nat)
    requires Descending(xs) && i < |xs|
    ensures xs[i] >= xs[|xs| - 1] + (|xs| - 1 - i)
    decreases |xs| - i
  {
    if i + 1 < |xs| { DescendingGap(xs, i + 1); }
  }

  /** With a hole below, `last` lies beyond the final size and the hole before it. */
  lemma Above(s: State, max: nat, last: nat, done: nat)
    requires Condensing(s, max, last, done) && s.removed != [] && s.removed[|s.removed| - 1] < last
    requires s.reqIds[last].Some?
    ensures s.removed[|s.removed| - 1] < |s.index| <= last
  {
    assert done < |s.removed| && s.removed[done] <= last;
    assert s.removed[done] in s.removed;
    DescendingGap(s.removed, done);
  }

  lemma MoveFollowed(s0: State, s: State, max: nat, last: nat, done: nat, id: int)
    requires Sliding(s0, s, max, last, done) && s.removed != [] && s.reqIds[last].Some? && s.removed[|s.removed| - 1] < last
    requires id in s.index
    ensures Followed(s0, MovedDown(s, last, s.removed[|s.removed| - 1]), id)
  {
    MoveViews(s, max, last, done, id);
    Above(s, max, last, done);
    assert Followed(s0, s, id);
    hide ViewAt, Condensing, Logged, RowsBeyond;
  }

  function Trimmed(s: State, n: nat): State
    requires n <= |s.reqIds| && n <= |s.outputs| && n <= |s.spec|
  {
    s.(reqIds := s.reqIds[..n], outputs := s.outputs[..n], spec := s.spec[..n])
  }

  /** The active requests fill [0, n) and nothing else does. */
  ghost predicate Packed(s: State, max: nat) {
    Sized(s, max) && Inverse(s.reqIds, s.index) && Owned(s) && |s.reqIds| == |s.index|
    && forall i: nat :: i < |s.reqIds| ==> s.reqIds[i].Some?
  }

  /** Packed, with every request's view unchanged, requests within the final size not moved, and
      the log telling how the rest did. */
  ghost predicate Condensed(s0: State, s: State, max: nat) {
    Packed(s, max) && s.index.Keys == s0.index.Keys && |s.index| == |s0.index| && RowsBeyond(s0, s)
    && (forall id :: id in s.index ==> Followed(s0, s, id))
    && (forall id :: id in s.index ==> id in s0.index && Get(s.embeds, s.index[id]) == Inherited(s0, id, s.index[id]))
    && |s0.moved| <= |s.moved| && s.moved[..|s0.moved|] == s0.moved
    && |s.reqIds| <= |s0.reqIds| && s.reqIds == Replay(s0.reqIds, s.moved[|s0.moved|..])[..|s.reqIds|]
  }

  lemma TrimPacked(s: State, max: nat, last: nat, done: nat)
    requires Condensing(s, max, last, done) && done == |s.removed|
    ensures last + 1 == |s.index| <= |s.reqIds| && Packed(Trimmed(s, |s.index|), max)
  {
    assert forall i :: i in s.removed ==> i > last;
  }

  lemma TrimLogged(s0: State, s: State, n: nat)
    requires Logged(s0, s) && n <= |s.reqIds| && n <= |s.outputs| && n <= |s.spec|
    ensures |s0.moved| <= |s.moved| && s.moved[..|s0.moved|] == s0.moved && |s.reqIds| == |s0.reqIds|
    ensures Trimmed(s, n).reqIds == Replay(s0.reqIds, s.moved[|s0.moved|..])[..n]
  {
  }

  lemma EmbedsAre(s0: State, s: State)
    requires EmbedsFollow(s0, s)
    ensures forall id :: id in s.index ==> id in s0.index && Get(s.embeds, s.index[id]) == Inherited(s0, id, s.index[id])
  {
  }

  lemma PackedSizes(s: State, max: nat)
    requires Packed(s, max)
    ensures |s.reqIds| == |s.outputs| == |s.index| <= |s.spec|
    ensures forall id :: id in s.index ==> s.index[id] < |s.reqIds|
  {
  }

  lemma TrimFollowed(s0: State, s: State, n: nat, id: int)
    requires Followed(s0, s, id) && n <= |s.reqIds| && n <= |s.outputs| && n <= |s.spec| && s.index[id] < n
    ensures Followed(s0, Trimmed(s, n), id)
  {
  }

  lemma SlideEnds(s0: State, s: State, max: nat, last: nat, done: nat)
    requires Sliding(s0, s, max, last, done) && done == |s.removed|
    ensures |s.index| <= |s.reqIds| && Condensed(s0, Trimmed(s, |s.index|), max)
  {
    hide Sized, Owned, Condensing, ViewAt, Inverse, Descending, Packed, Followed, Logged, EmbedsFollow, Replay;
    SlideReady(s, max, last, done);
    TrimPacked(s, max, last, done);
    TrimLogged(s0, s, |s.index|);
    EmbedsAre(s0, s);
    var t := Trimmed(s, |s.index|);
    PackedSizes(t, max);
    forall id | id in t.index
      ensures Followed(s0, t, id)
    {
      assert Followed(s0, s, id);
      TrimFollowed(s0, s, |s.index|, id);
    }
  }

  /** Nothing above `last` is left when the smallest hole lies there. */
  lemma AllAbove(s: State, max: nat, last: nat, done: nat)
    requires Condensing(s, max, last, done) && (s.removed == [] || s.removed[|s.removed| - 1] > last)
    ensures done == |s.removed|
  {
  }

  lemma NothingToDo(s: State, max: nat)
    requires Valid(s, max) && s.removed == []
    ensures Condensed(s, s, max)
  {
    assert s.moved[|s.moved|..] == [];
    hide ViewAt;
    forall id | id in s.index
      ensures Followed(s, s, id)
    {
    }
  }

  lemma NobodyLeft(s: State, max: nat)
    requires Valid(s, max) && |s.index| == 0
    ensures Condensed(s, Trimmed(s, 0), max) && Trimmed(s, 0) == s.(reqIds := [], outputs := [], spec := [])
  {
    NoLive(s, max);
    assert s.index == map[];
    assert s.moved[|s.moved|..] == [];
  }

  lemma NoLive(s: State, max: nat)
    requires Valid(s, max) && |s.index| == 0
    ensures s.index == map[] && s.generators == map[] && s.badWords == map[]
  {
    assert forall i: nat :: i < |s.reqIds| ==> s.reqIds[i].None?;
    assert forall i :: i in s.generators || i in s.badWords ==> Live(s.reqIds, i);
  }

  // ---- adding, removing, swapping ----

  datatype Request = Request(id: int, prompt: Option<seq<int>>, promptLen: nat, embeds: Option<int>, outputs: seq<int>,
                             numComputed: nat,
                             blocks: seq<nat>, greedy: bool, sampling: Sampling, generator: Option<int>, badWords: Option<int>,
                             disallowed: Option<seq<bool>>, lora: int)

  function SamplingOf(req: Request, vocab: int): Sampling {
    req.sampling.(temperature := if req.greedy then 0.0 else req.sampling.temperature,
                  topK := if 0 < req.sampling.topK < vocab then req.sampling.topK else vocab)
  }

  function Trues(n: nat): seq<bool> { seq(n, _ => true) }
  function Falses(n: nat): seq<bool> { seq(n, _ => false) }

  /** `dst[from:from+|src|] = src` */
  function Splice<T>(dst: seq<T>, from: nat, src: seq<T>): (r: seq<T>)
    requires from + |src| <= |dst|
    ensures |r| == |dst|
  {
    dst[..from] + src + dst[from + |src|..]
  }

  ghost predicate Fits(s: State, req: Request, max: nat) {
    Valid(s, max) && req.id !in s.index && (s.removed == [] ==> |s.index| < max)
        && (req.prompt.Some? ==> |req.prompt.value| == req.promptLen)
    && forall i :: 0 <= i < max ==> req.promptLen + |req.outputs| <= |s.rows[i].tokens|
  }

  function RowFor(row: Row, req: Request, vocab: int): Row
    requires req.promptLen + |req.outputs| <= |row.tokens| == |row.isToken|
             && (req.prompt.Some? ==> |req.prompt.value| == req.promptLen)
  {
    var prompt := if req.prompt.Some? then Splice(row.tokens, 0, req.prompt.value) else row.tokens;
    var flags := Splice(row.isToken, 0, if req.prompt.Some? then Trues(req.promptLen) else Falses(req.promptLen));
    Row(Splice(prompt, req.promptLen, req.outputs), Splice(flags, req.promptLen, Trues(|req.outputs|)),
        req.promptLen + |req.outputs|,
        req.promptLen, req.numComputed, SamplingOf(req, vocab), 1, req.lora, req.blocks,
        if req.disallowed.Some? then req.disallowed.value else row.masked)
  }

  /** The request sits at index `i`, till now a hole or the end. */
  function Entered(s: State, req: Request, i: nat, vocab: int): State
    requires i <= |s.reqIds| == |s.outputs| <= |s.spec| && i < |s.rows|
    requires req.promptLen + |req.outputs| <= |s.rows[i].tokens| == |s.rows[i].isToken|
    requires req.prompt.Some? ==> |req.prompt.value| == req.promptLen
  {
    var end := i == |s.reqIds|;
    s.(reqIds := if end then s.reqIds + [Some(req.id)] else s.reqIds[i := Some(req.id)],
       outputs := if end then s.outputs + [Some(req.outputs)] else s.outputs[i := Some(req.outputs)],
       spec := if end then s.spec + [[]] else s.spec[i := []],
       index := s.index[req.id := i],
       rows := s.rows[i := RowFor(s.rows[i], req, vocab)],
       embeds := if req.embeds.Some? then s.embeds[i := req.embeds.value] else s.embeds,
       generators := if req.generator.Some? then s.generators[i := req.generator.value] else s.generators,
       badWords := if req.badWords.Some? then s.badWords[i := req.badWords.value] else s.badWords)
  }

  function PopRemoved(removed: seq<nat>): seq<nat> { if removed == [] then [] else removed[..|removed| - 1] }

  /** The same, the index being taken off the removed ones. */
  function Added(s: State, req: Request, i: nat, vocab: int): State
    requires i <= |s.reqIds| == |s.outputs| <= |s.spec| && i < |s.rows|
    requires req.promptLen + |req.outputs| <= |s.rows[i].tokens| == |s.rows[i].isToken|
    requires req.prompt.Some? ==> |req.prompt.value| == req.promptLen
  {
    Entered(s, req, i, vocab).(removed := PopRemoved(s.removed))
  }

  function NextIndex(s: State): nat { if s.removed == [] then |s.index| else s.removed[|s.removed| - 1] }

  lemma NextIsVacant(s: State, max: nat)
    requires Valid(s, max) && (s.removed == [] ==> |s.index| < max)
    ensures var i := NextIndex(s);
            i <= |s.reqIds| == |s.outputs| <= |s.spec| && i < |s.rows| && !Live(s.reqIds, i)
                && (i < |s.reqIds| <==> s.removed != [])
            && |s.rows[i].tokens| == |s.rows[i].isToken|
  {
    if s.removed != [] { assert s.removed[|s.removed| - 1] in s.removed; }
  }

  ghost predicate Layout(reqIds: seq<Option<int>>, index: map<int, nat>, removed: seq<nat>) {
    Inverse(reqIds, index) && Holes(reqIds, removed) && |reqIds| == |index| + |removed|
  }

  lemma FillHole(reqIds: seq<Option<int>>, index: map<int, nat>, removed: seq<nat>, id: int)
    requires Layout(reqIds, index, removed) && removed != [] && id !in index
    ensures removed[|removed| - 1] < |reqIds|
    ensures Layout(reqIds[removed[|removed| - 1] := Some(id)], index[id := removed[|removed| - 1]], removed[..|removed| - 1])
  {
    DropLast(removed);
    assert removed[|removed| - 1] in removed;
  }

  lemma AppendEnd(reqIds: seq<Option<int>>, index: map<int, nat>, id: int)
    requires Layout(reqIds, index, []) && id !in index
    ensures Layout(reqIds + [Some(id)], index[id := |reqIds|], [])
  {
  }

  lemma AddSized(s: State, max: nat, req: Request, vocab: int, i: nat)
    requires Sized(s, max) && i <= |s.reqIds| && i < max && (req.prompt.Some? ==> |req.prompt.value| == req.promptLen)
    requires req.promptLen + |req.outputs| <= |s.rows[i].tokens| == |s.rows[i].isToken|
    requires req.disallowed.Some? ==> forall j :: 0 <= j < max ==> |req.disallowed.value| == |s.rows[j].masked|
    ensures Sized(Added(s, req, i, vocab), max)
  {
    var row := RowFor(s.rows[i], req, vocab);
    assert |row.tokens| == |s.rows[i].tokens| == |row.isToken| && |row.masked| == |s.rows[i].masked|;
    hide RowFor;
  }

  lemma FitsNext(s: State, req: Request, max: nat)
    requires Fits(s, req, max)
    ensures var i := NextIndex(s);
            i <= |s.reqIds| == |s.outputs| <= |s.spec| && i < |s.rows|
            && req.promptLen + |req.outputs| <= |s.rows[i].tokens| == |s.rows[i].isToken|
    ensures req.prompt.Some? ==> |req.prompt.value| == req.promptLen
  {
    NextIsVacant(s, max);
  }

  lemma AddOwned(s: State, req: Request, vocab: int, i: nat)
    requires Owned(s) && !Live(s.reqIds, i) && i <= |s.reqIds| == |s.outputs| <= |s.spec| && i < |s.rows|
    requires req.promptLen + |req.outputs| <= |s.rows[i].tokens| == |s.rows[i].isToken|
             && (req.prompt.Some? ==> |req.prompt.value| == req.promptLen)
    ensures Owned(Added(s, req, i, vocab))
  {
    hide RowFor, Splice;
    var t := Added(s, req, i, vocab);
    assert Live(t.reqIds, i) && forall j: nat :: j != i ==> (Live(t.reqIds, j) <==> Live(s.reqIds, j));
    hide Live;
  }

  lemma AddKeeps(s: State, max: nat, req: Request, vocab: int)
    requires Fits(s, req, max)
    requires req.disallowed.Some? ==> forall i :: 0 <= i < max ==> |req.disallowed.value| == |s.rows[i].masked|
    ensures NextIndex(s) <= |s.reqIds| == |s.outputs| <= |s.spec| && NextIndex(s) < |s.rows|
    ensures |s.rows[NextIndex(s)].tokens| == |s.rows[NextIndex(s)].isToken|
    ensures Valid(Added(s, req, NextIndex(s), vocab), max)
  {
    hide Inverse, Holes, Sized, Owned, RowFor, Splice;
    FitsNext(s, req, max);
    SizedOf(s, max);
    NextIsVacant(s, max);
    AddOwned(s, req, vocab, NextIndex(s));
    AddSized(s, max, req, vocab, NextIndex(s));
    if s.removed != [] { FillHole(s.reqIds, s.index, s.removed, req.id); } else { AppendEnd(s.reqIds, s.index, req.id); }
    ValidParts(Added(s, req, NextIndex(s), vocab), max);
  }

  lemma ValidSizes(s: State, max: nat)
    requires Valid(s, max)
    ensures |s.reqIds| == |s.outputs| <= |s.spec| && |s.reqIds| <= |s.rows|
            && forall id :: id in s.index ==> s.index[id] < |s.reqIds|
  {
  }

  lemma ValidParts(s: State, max: nat)
    ensures Valid(s, max) <==> Sized(s, max) && Owned(s) && Layout(s.reqIds, s.index, s.removed)
  {
  }

  /** Two parts written side by side read back as one. */
  lemma SpliceTwice<T>(dst: seq<T>, a: seq<T>, b: seq<T>)
    requires |a| + |b| <= |dst|
    ensures Upto(Splice(Splice(dst, 0, a), |a|, b), |a| + |b|) == a + b
  {
  }

  lemma SpliceAfter<T>(dst: seq<T>, n: nat, b: seq<T>)
    requires n + |b| <= |dst|
    ensures Upto(Splice(dst, n, b), n + |b|) == dst[..n] + b
  {
  }

  lemma RowForView(row: Row, req: Request, vocab: int)
    requires req.promptLen + |req.outputs| <= |row.tokens| == |row.isToken|
             && (req.prompt.Some? ==> |req.prompt.value| == req.promptLen)
    ensures var r, n := RowFor(row, req, vocab), req.promptLen + |req.outputs|;
            req.prompt.Some? ==> Upto(r.tokens, n) == req.prompt.value + req.outputs && Upto(r.isToken, n) == Trues(n)
    ensures var r, n := RowFor(row, req, vocab), req.promptLen + |req.outputs|;
            req.prompt.None? ==> Upto(r.tokens, n) == row.tokens[..req.promptLen] + req.outputs
                                 && Upto(r.isToken, n) == Falses(req.promptLen) + Trues(|req.outputs|)
  {
    if req.prompt.None? {
      SpliceAfter(row.tokens, req.promptLen, req.outputs);
      SpliceTwice(row.isToken, Falses(req.promptLen), Trues(|req.outputs|));
    }
    if req.prompt.Some? {
      SpliceTwice(row.tokens, req.prompt.value, req.outputs);
      SpliceTwice(row.isToken, Trues(req.promptLen), Trues(|req.outputs|));
      assert Trues(req.promptLen) + Trues(|req.outputs|) == Trues(req.promptLen + |req.outputs|);
    }
    hide Splice, Upto, Trues;
  }

  /** The new request sees its own data; its token mask and embeddings are its own if it has any,
      else whatever the index still held. Nobody else notices. */
  lemma AddViews(s: State, max: nat, req: Request, vocab: int)
    requires Fits(s, req, max)
    ensures NextIndex(s) <= |s.reqIds| == |s.outputs| <= |s.spec| && NextIndex(s) < |s.rows|
    ensures |s.rows[NextIndex(s)].tokens| == |s.rows[NextIndex(s)].isToken|
    ensures var i, t := NextIndex(s), Added(s, req, NextIndex(s), vocab);
            i < |t.outputs| && i < |t.rows| && i < |t.spec|
            && ViewAt(t, i).masked == (if req.disallowed.Some? then req.disallowed.value else s.rows[i].masked)
            && Get(t.embeds, i) == (if req.embeds.Some? then req.embeds else Get(s.embeds, i))
            && ViewAt(t, i) == ViewAt(t, i).(outputs := Some(req.outputs), spec := [], numTokens := req.promptLen + |req.outputs|,
                                             numPrompt := req.promptLen, numComputed := req.numComputed,
                                             sampling := SamplingOf(req, vocab),
                                             accepted := 1, lora := req.lora, blocks := req.blocks, generator := req.generator,
                                             badWords := req.badWords)
            && (req.prompt.Some? ==> ViewAt(t, i).tokens == req.prompt.value + req.outputs
                                     && ViewAt(t, i).isToken == Trues(req.promptLen + |req.outputs|))
            && (req.prompt.None? ==> req.promptLen <= |s.rows[i].tokens|
                                     && ViewAt(t, i).tokens == s.rows[i].tokens[..req.promptLen] + req.outputs
                                     && ViewAt(t, i).isToken == Falses(req.promptLen) + Trues(|req.outputs|))
  {
    hide Fits, Valid, Splice, Upto, Trues, Falses;
    FitsNext(s, req, max);
    VacantRecords(s, req, max);
    RowForView(s.rows[NextIndex(s)], req, vocab);
  }

  lemma AddOthers(s: State, max: nat, req: Request, vocab: int, id: int)
    requires Fits(s, req, max) && id in s.index
    ensures NextIndex(s) <= |s.reqIds| == |s.outputs| <= |s.spec| && NextIndex(s) < |s.rows|
    ensures |s.rows[NextIndex(s)].tokens| == |s.rows[NextIndex(s)].isToken|
    ensures var t := Added(s, req, NextIndex(s), vocab);
            Indexed(s, id) && Indexed(t, id) && t.index[id] == s.index[id] && ViewAt(t, t.index[id]) == ViewAt(s, s.index[id])
  {
    hide Fits, Valid, RowFor, Splice;
    FitsNext(s, req, max);
    FitsIndexed(s, req, max, id);
  }

  lemma FitsIndexed(s: State, req: Request, max: nat, id: int)
    requires Fits(s, req, max) && id in s.index
    ensures Indexed(s, id) && s.index[id] < |s.reqIds| && s.index[id] != NextIndex(s) && id != req.id
  {
    hide Descending, Owned;
    NextIsVacant(s, max);
    assert s.reqIds[s.index[id]] == Some(id);
  }

  lemma VacantRecords(s: State, req: Request, max: nat)
    requires Fits(s, req, max)
    ensures NextIndex(s) !in s.generators && NextIndex(s) !in s.badWords && NextIndex(s) < |s.spec| + 1
    ensures NextIndex(s) < |s.spec| ==> s.spec[NextIndex(s)] == []
  {
    NextIsVacant(s, max);
  }

  lemma EnterAfterPop(s: State, req: Request, i: nat, vocab: int)
    requires i <= |s.reqIds| == |s.outputs| <= |s.spec| && i < |s.rows|
    requires req.promptLen + |req.outputs| <= |s.rows[i].tokens| == |s.rows[i].isToken|
    requires req.prompt.Some? ==> |req.prompt.value| == req.promptLen
    ensures Entered(s.(removed := PopRemoved(s.removed)), req, i, vocab) == Added(s, req, i, vocab)
  {
    hide RowFor;
  }

  /** After condensing, a newcomer that restricts nothing gets the mask row left at the end of the
      batch: it is unrestricted exactly when that row was clear before condensing. */
  lemma NewcomerMask(s0: State, s: State, max: nat, req: Request, vocab: int)
    requires Condensed(s0, s, max) && Fits(s.(removed := []), req, max) && req.disallowed.None?
    ensures var s1 := s.(removed := []);
            var n := |s.index|;
            n < |s0.rows| && NextIndex(s1) == n <= |s1.reqIds| == |s1.outputs| <= |s1.spec| && n < |s1.rows|
            && |s1.rows[n].tokens| == |s1.rows[n].isToken|
            && n < |Added(s1, req, n, vocab).outputs| && n < |Added(s1, req, n, vocab).spec|
            && ViewAt(Added(s1, req, n, vocab), n).masked == s0.rows[n].masked
  {
    AddViews(s.(removed := []), max, req, vocab);
    NextIsVacant(s.(removed := []), max);
    hide ViewAt, Followed, Owned, Inverse, Holes, RowFor;
  }

  /** `removed` kept in descending order. */
  function Insert(removed: seq<nat>, i: nat): (r: seq<nat>)
    ensures |r| == |removed| + 1
  {
    if removed == [] || removed[|removed| - 1] > i then removed + [i]
    else Insert(removed[..|removed| - 1], i) + [removed[|removed| - 1]]
  }

  lemma {:induction false} InsertDescends(removed: seq<nat>, i: nat)
    requires Descending(removed) && i !in removed
    ensures Descending(Insert(removed, i)) && forall x :: x in Insert(removed, i) <==> x in removed || x == i
  {
    if removed != [] && removed[|removed| - 1] <= i {
      var k := |removed| - 1;
      DropLast(removed);
      assert removed[k] in removed;
      InsertDescends(removed[..k], i);
      var front := Insert(removed[..k], i);
      forall j | 0 <= j < |front|
        ensures front[j] > removed[k]
      {
        assert front[j] in front;
      }
    }
  }

  /** The request is gone and its index a hole; embeddings stay behind. */
  function Removed(s: State, id: int): State
    requires id in s.index && s.index[id] < |s.reqIds| == |s.outputs| <= |s.spec| && s.index[id] < |s.rows|
  {
    var i := s.index[id];
    s.(reqIds := s.reqIds[i := None], index := s.index - {id}, outputs := s.outputs[i := None], spec := s.spec[i := []],
       rows := s.rows[i := s.rows[i].(blocks := [], lora := 0, masked := Falses(|s.rows[i].masked|))],
       generators := s.generators - {i}, badWords := s.badWords - {i}, removed := Insert(s.removed, i))
  }

  lemma {:induction false} InsertBelow(removed: seq<nat>, i: nat, n: nat)
    requires i < n && forall j :: 0 <= j < |removed| ==> removed[j] < n
    ensures forall j :: 0 <= j < |removed| + 1 ==> Insert(removed, i)[j] < n
  {
    if removed != [] { InsertBelow(removed[..|removed| - 1], i, n); }
  }

  lemma DropKey(m: map<int, nat>, id: int)
    requires id in m
    ensures |m - {id}| == |m| - 1
  {
    var rest := m - {id};
    assert m == rest[id := m[id]];
  }

  lemma LeaveHole(reqIds: seq<Option<int>>, index: map<int, nat>, removed: seq<nat>, id: int)
    requires Layout(reqIds, index, removed) && id in index
    ensures Layout(reqIds[index[id] := None], index - {id}, Insert(removed, index[id]))
  {
    var i := index[id];
    InsertDescends(removed, i);
    InsertBelow(removed, i, |reqIds|);
    DropKey(index, id);
  }

  lemma RemoveKeeps(s: State, max: nat, id: int)
    requires Valid(s, max) && id in s.index
    ensures Valid(Removed(s, id), max)
  {
    var i, t := s.index[id], Removed(s, id);
    LeaveHole(s.reqIds, s.index, s.removed, id);
    assert |t.rows[i].masked| == |s.rows[i].masked|;
    ValidParts(t, max);
    RemoveOwned(s, id);
    hide Inverse, Holes, Owned;
  }

  lemma RemoveOwned(s: State, id: int)
    requires Owned(s) && id in s.index && s.index[id] < |s.reqIds| == |s.outputs| <= |s.spec| && s.index[id] < |s.rows|
    ensures Owned(Removed(s, id))
  {
  }

  lemma RemoveOthers(s: State, max: nat, id: int, other: int)
    requires Valid(s, max) && id in s.index && other in s.index && other != id
    ensures var t := Removed(s, id);
            Indexed(s, other) && Indexed(t, other) && t.index[other] == s.index[other]
            && ViewAt(t, t.index[other]) == ViewAt(s, s.index[other])
  {
    assert s.reqIds[s.index[other]] == Some(other) && s.reqIds[s.index[id]] == Some(id);
    hide Holes, Descending, Owned;
  }

  /** What removal leaves at the index: nothing of the request but tokens, counters, sampling parameters
      and embeddings, all overwritten or, the embeddings, superseded by what comes next. */
  lemma RemovedLeaves(s: State, max: nat, id: int)
    requires Valid(s, max) && id in s.index
    ensures var i, t := s.index[id], Removed(s, id);
            i < |t.rows| && i < |t.spec| && i < |t.outputs| && i < |s.rows| && t.reqIds[i] == None && id !in t.index
            && t.outputs[i] == None && t.spec[i] == [] && t.rows[i].blocks == [] && t.rows[i].lora == 0
            && |t.rows[i].masked| == |s.rows[i].masked| && (forall j :: 0 <= j < |t.rows[i].masked| ==> !t.rows[i].masked[j])
            && Get(t.generators, i) == None && Get(t.badWords, i) == None
            && t.rows[i] == s.rows[i].(blocks := [], lora := 0, masked := t.rows[i].masked) && t.embeds == s.embeds
  {
    hide Valid, Insert;
    ValidSizes(s, max);
  }

  /** A newcomer that restricts nothing and takes the index just left, the smallest hole, is shown a mask
      that forbids nothing. */
  lemma ReusedIndexIsClear(s: State, max: nat, id: int, req: Request, vocab: int)
    requires Valid(s, max) && id in s.index && (s.removed == [] || s.index[id] < s.removed[|s.removed| - 1])
    requires s.index[id] < |s.reqIds| == |s.outputs| <= |s.spec| && s.index[id] < |s.rows|
    requires Fits(Removed(s, id), req, max) && req.disallowed.None?
    ensures var i, t := s.index[id], Removed(s, id);
            NextIndex(t) == i <= |t.reqIds| == |t.outputs| <= |t.spec|
            && i < |t.rows| && |t.rows[i].tokens| == |t.rows[i].isToken|
            && var u := Added(t, req, i, vocab);
               i < |u.outputs| && i < |u.rows| && i < |u.spec| && |ViewAt(u, i).masked| == |s.rows[i].masked|
               && forall j :: 0 <= j < |ViewAt(u, i).masked| ==> !ViewAt(u, i).masked[j]
  {
    hide Valid, Fits, ViewAt, Insert;
    ValidSizes(s, max);
    RemovedLeaves(s, max, id);
    JustLeft(s, id);
    AddViews(Removed(s, id), max, req, vocab);
  }

  lemma JustLeft(s: State, id: int)
    requires id in s.index && s.index[id] < |s.reqIds| == |s.outputs| <= |s.spec| && s.index[id] < |s.rows|
    requires s.removed == [] || s.index[id] < s.removed[|s.removed| - 1]
    ensures NextIndex(Removed(s, id)) == s.index[id]
  {
  }

  /** Greedy requests sample at temperature zero, a top-k outside (0, vocabulary) means all tokens, and
      the rest is taken over. */
  lemma SamplingRules(req: Request, vocab: int)
    ensures var p, q := SamplingOf(req, vocab), req.sampling;
            (req.greedy ==> p.temperature == 0.0) && (!req.greedy ==> p.temperature == q.temperature)
            && (0 < q.topK < vocab ==> p.topK == q.topK) && (q.topK <= 0 || q.topK >= vocab ==> p.topK == vocab)
            && p.topP == q.topP && p.frequency == q.frequency && p.presence == q.presence && p.repetition == q.repetition
  {
  }

  function Exchange(m: map<nat, int>, i: nat, j: nat): map<nat, int> {
    Put(Put(m, i, Get(m, j)), j, Get(m, i))
  }

  function MaxOf(a: nat, b: nat): nat { if a < b then b else a }

  /** The second row of a swap: all of the first, but not its mask. The mask rows are views of one
      tensor, so by the time the second is assigned the first has been overwritten. */
  function SwappedRow(dst: Row, src: Row, n: nat): Row {
    MovedRow(dst, src, n).(masked := dst.masked)
  }

  /** Two active requests change places, the token masks apart; only active tokens are copied. */
  function Swapped(s: State, i: nat, j: nat): State
    requires i < |s.reqIds| == |s.outputs| <= |s.spec| && j < |s.reqIds| <= |s.rows| && s.reqIds[i].Some? && s.reqIds[j].Some?
  {
    var n := MaxOf(ActiveTokens(s, i), ActiveTokens(s, j));
    s.(reqIds := s.reqIds[i := s.reqIds[j]][j := s.reqIds[i]], index := s.index[s.reqIds[i].value := j][s.reqIds[j].value := i],
       outputs := s.outputs[i := s.outputs[j]][j := s.outputs[i]], spec := s.spec[i := s.spec[j]][j := s.spec[i]],
       rows := s.rows[i := MovedRow(s.rows[i], s.rows[j], n)][j := SwappedRow(s.rows[j], s.rows[i], n)],
       embeds := Exchange(s.embeds, i, j), generators := Exchange(s.generators, i, j), badWords := Exchange(s.badWords, i, j),
       moved := s.moved + [Swap(i, j)])
  }

  lemma SwapLayout(s: State, max: nat, i: nat, j: nat)
    requires Valid(s, max) && Live(s.reqIds, i) && Live(s.reqIds, j)
    ensures Layout(Swapped(s, i, j).reqIds, Swapped(s, i, j).index, s.removed)
  {
    hide Sized, Owned, Inverse, Holes, MovedRow, SwappedRow, Exchange, ActiveTokens;
    ValidSizes(s, max);
    ExchangeIds(s.reqIds, s.index, i, j);
    ExchangeHoles(s.reqIds, s.removed, i, j);
  }

  lemma ExchangeIds(reqIds: seq<Option<int>>, index: map<int, nat>, i: nat, j: nat)
    requires Inverse(reqIds, index) && Live(reqIds, i) && Live(reqIds, j)
    ensures var ids, ix := reqIds[i := reqIds[j]][j := reqIds[i]], index[reqIds[i].value := j][reqIds[j].value := i];
            Inverse(ids, ix) && |ix| == |index|
  {
    assert index[reqIds[i].value := j][reqIds[j].value := i].Keys == index.Keys;
  }

  lemma ExchangeHoles(reqIds: seq<Option<int>>, removed: seq<nat>, i: nat, j: nat)
    requires Holes(reqIds, removed) && Live(reqIds, i) && Live(reqIds, j)
    ensures Holes(reqIds[i := reqIds[j]][j := reqIds[i]], removed)
  {
  }

  lemma OverwriteMore<T>(dst: seq<T>, src: seq<T>, n: nat, m: nat)
    requires m <= n && |dst| == |src|
    ensures Upto(Overwrite(dst, src, n), m) == Upto(src, m)
  {
  }

  lemma SwapTakes(s: State, max: nat, i: nat, j: nat)
    requires Valid(s, max) && Live(s.reqIds, i) && Live(s.reqIds, j)
    ensures var t := Swapped(s, i, j);
            |t.outputs| == |s.outputs| && |t.spec| == |s.spec| && |t.rows| == |s.rows|
            && ViewAt(t, i) == ViewAt(s, j) && Get(t.embeds, i) == Get(s.embeds, j)
  {
    var n := MaxOf(ActiveTokens(s, i), ActiveTokens(s, j));
    OverwriteMore(s.rows[i].tokens, s.rows[j].tokens, n, ActiveTokens(s, j));
    OverwriteMore(s.rows[i].isToken, s.rows[j].isToken, n, ActiveTokens(s, j));
    hide Overwrite, Upto, Inverse, Holes, Owned, Sized;
  }

  /** The first request keeps all but its mask, which becomes the second's. */
  lemma SwapGives(s: State, max: nat, i: nat, j: nat)
    requires Valid(s, max) && Live(s.reqIds, i) && Live(s.reqIds, j)
    ensures var t := Swapped(s, i, j);
            |t.outputs| == |s.outputs| && |t.spec| == |s.spec| && |t.rows| == |s.rows|
            && ViewAt(t, j) == ViewAt(s, i).(masked := s.rows[j].masked) && Get(t.embeds, j) == Get(s.embeds, i)
  {
    var n := MaxOf(ActiveTokens(s, i), ActiveTokens(s, j));
    OverwriteMore(s.rows[j].tokens, s.rows[i].tokens, n, ActiveTokens(s, i));
    OverwriteMore(s.rows[j].isToken, s.rows[i].isToken, n, ActiveTokens(s, i));
    hide Overwrite, Upto, Inverse, Holes, Owned, Sized;
  }

  lemma ExchangeLeaves(m: map<nat, int>, i: nat, j: nat, k: nat)
    requires k != i && k != j
    ensures Get(Exchange(m, i, j), k) == Get(m, k)
  {
  }

  lemma SwapLeaves(s: State, max: nat, i: nat, j: nat, k: nat)
    requires Valid(s, max) && Live(s.reqIds, i) && Live(s.reqIds, j) && k < |s.reqIds| && k != i && k != j
    ensures var t := Swapped(s, i, j);
            |t.outputs| == |s.outputs| && |t.spec| == |s.spec| && |t.rows| == |s.rows|
            && ViewAt(t, k) == ViewAt(s, k) && Get(t.embeds, k) == Get(s.embeds, k)
  {
    hide Overwrite, Upto, Inverse, Holes, Owned, Sized, MovedRow, SwappedRow, Exchange, Get;
    ValidSizes(s, max);
    ExchangeLeaves(s.embeds, i, j, k);
    ExchangeLeaves(s.generators, i, j, k);
    ExchangeLeaves(s.badWords, i, j, k);
  }

  /** So a request keeps its whole view in a swap exactly when the two masks are equal. */
  lemma SwapKeepsMask(s: State, max: nat, i: nat, j: nat)
    requires Valid(s, max) && Live(s.reqIds, i) && Live(s.reqIds, j)
    ensures |Swapped(s, i, j).outputs| == |s.outputs| && |Swapped(s, i, j).spec| == |s.spec|
            && |Swapped(s, i, j).rows| == |s.rows|
    ensures ViewAt(Swapped(s, i, j), j) == ViewAt(s, i) <==> s.rows[i].masked == s.rows[j].masked
  {
    SwapGives(s, max, i, j);
    hide Swapped, Upto, Inverse, Holes, Owned, Sized;
  }

  lemma SwapKeeps(s: State, max: nat, i: nat, j: nat)
    requires Valid(s, max) && Live(s.reqIds, i) && Live(s.reqIds, j)
    ensures Valid(Swapped(s, i, j), max)
  {
    SwapLayout(s, max, i, j);
    ValidParts(Swapped(s, i, j), max);
    SwapSized(s, max, i, j);
    SwapOwned(s, i, j);
    hide Sized, Owned, Layout, Swapped;
  }

  lemma SwapSized(s: State, max: nat, i: nat, j: nat)
    requires Sized(s, max) && Live(s.reqIds, i) && Live(s.reqIds, j)
    ensures Sized(Swapped(s, i, j), max)
  {
  }

  lemma SwapOwned(s: State, i: nat, j: nat)
    requires Owned(s) && Live(s.reqIds, i) && Live(s.reqIds, j) && |s.reqIds| == |s.outputs| <= |s.spec| && |s.reqIds| <= |s.rows|
    ensures Owned(Swapped(s, i, j))
  {
    hide MovedRow, SwappedRow;
    var t := Swapped(s, i, j);
    assert forall k: nat :: Live(t.reqIds, k) <==> Live(s.reqIds, k);
  }

  // ---- the loop of condensing ----

  lemma LastIndex(s: State, max: nat)
    requires Valid(s, max)
    ensures |s.reqIds| == |s.index| + |s.removed|
  {
  }

  lemma SkipHole(s0: State, s: State, max: nat, last: nat, done: nat)
    requires Sliding(s0, s, max, last, done) && last in s.removed && |s.index| > 0
    ensures last > 0 && Sliding(s0, s, max, last - 1, done + 1)
  {
    hide Followed, EmbedsFollow, RowsBeyond, Logged;
    HoleOnTop(s, max, last, done);
  }

  lemma HoleOnTop(s: State, max: nat, last: nat, done: nat)
    requires Condensing(s, max, last, done) && last in s.removed && |s.index| > 0
    ensures last > 0 && Condensing(s, max, last - 1, done + 1)
  {
    hide Sized, Owned, Inverse;
    var j :| 0 <= j < |s.removed| && s.removed[j] == last;
    assert j >= done;
    assert s.removed[done] <= last;
    assert j == done;
  }

  lemma TopIsLive(s0: State, s: State, max: nat, last: nat, done: nat)
    requires Sliding(s0, s, max, last, done) && last !in s.removed && s.removed != []
    ensures last < |s.reqIds| && |s.reqIds| == |s.outputs| <= |s.spec| && last < |s.rows| && s.reqIds[last].Some?
    ensures s.removed[|s.removed| - 1] != last
  {
    SizedOf(s, max);
    assert s.removed[|s.removed| - 1] in s.removed;
    hide Sized;
  }

  lemma SizedNow(s0: State, s: State, max: nat, last: nat, done: nat)
    requires Sliding(s0, s, max, last, done)
    ensures |s.reqIds| == |s.outputs| <= |s.spec| && |s.index| == |s0.index|
    ensures done == |s.removed| ==> |s.index| <= |s.reqIds|
  {
  }

  lemma NoneBelow(s0: State, s: State, max: nat, last: nat, done: nat)
    requires Sliding(s0, s, max, last, done) && (s.removed == [] || s.removed[|s.removed| - 1] > last)
    ensures done == |s.removed|
  {
    AllAbove(s, max, last, done);
  }

  function BlankRow(maxLen: nat, vocab: nat): Row {
    Row(seq(maxLen, _ => 0), Falses(maxLen), 0, 0, 0, Sampling(0.0, 0.0, 0, 0.0, 0.0, 0.0), 1, 0, [], Falses(vocab))
  }

  function Start(max: nat, maxLen: nat, vocab: nat): State {
    State([], map[], [], seq(max, _ => []), seq(max, _ => BlankRow(maxLen, vocab)), map[], map[], map[], [], [])
  }

  lemma StartIsValid(max: nat, maxLen: nat, vocab: nat)
    ensures Valid(Start(max, maxLen, vocab), max)
  {
  }

  // ---- the batch itself ----

  class InputBatch {
    const maxReqs: nat
    const vocab: int
    var reqIds: seq<Option<int>>
    var index: map<int, nat>
    var outputs: seq<Option<seq<int>>>
    var spec: seq<seq<int>>
    var rows: seq<Row>
    var embeds: map<nat, int>
    var generators: map<nat, int>
    var badWords: map<nat, int>
    var removed: seq<nat>
    var moved: seq<Move>

    ghost function S(): State reads this {
      State(reqIds, index, outputs, spec, rows, embeds, generators, badWords, removed, moved)
    }

    constructor (maxReqs: nat, maxLen: nat, vocab: nat)
      ensures this.maxReqs == maxReqs && this.vocab == vocab && Valid(S(), maxReqs) && S() == Start(maxReqs, maxLen, vocab)
    {
      this.maxReqs, this.vocab := maxReqs, vocab;
      reqIds, index, outputs, spec := [], map[], [], seq(maxReqs, _ => []);
      rows := seq(maxReqs, _ => BlankRow(maxLen, vocab));
      embeds, generators, badWords, removed, moved := map[], map[], map[], [], [];
      new;
      StartIsValid(maxReqs, maxLen, vocab);
      assert spec == Start(maxReqs, maxLen, vocab).spec && rows == Start(maxReqs, maxLen, vocab).rows;
    }

    method AddRequest(req: Request) returns (i: nat)
      requires Fits(S(), req, maxReqs)
      requires req.disallowed.Some? ==> forall j :: 0 <= j < maxReqs ==> |req.disallowed.value| == |rows[j].masked|
      modifies this
      ensures Valid(S(), maxReqs) && i == NextIndex(old(S()))
      ensures i <= old(|reqIds|) == old(|outputs|) <= old(|spec|) && i < old(|rows|)
              && |old(rows)[i].tokens| == |old(rows)[i].isToken|
      ensures S() == Added(old(S()), req, i, vocab)
    {
      hide Fits, Valid, Entered;
      FitsNext(S(), req, maxReqs);
      AddKeeps(S(), maxReqs, req, vocab);
      i := RegisterAddRequest();
      assert S() == old(S()).(removed := PopRemoved(old(removed)));
      EnterAfterPop(old(S()), req, i, vocab);
      Enter(req, i);
    }

    method Enter(req: Request, i: nat)
      requires i <= |reqIds| == |outputs| <= |spec| && i < |rows|
      requires req.promptLen + |req.outputs| <= |rows[i].tokens| == |rows[i].isToken|
               && (req.prompt.Some? ==> |req.prompt.value| == req.promptLen)
      modifies this
      ensures S() == Entered(old(S()), req, i, vocab)
    {
      hide RowFor;
      PlaceRequest(req, i);
      index := index[req.id := i];
      rows := rows[i := RowFor(rows[i], req, vocab)];
      RecordRequest(req, i);
    }

    /** The next vacant index: the smallest hole, else the end. */
    method RegisterAddRequest() returns (i: nat)
      modifies this`removed
      ensures i == NextIndex(old(S()))
      ensures removed == PopRemoved(old(removed))
    {
      if removed == [] {
        i := |index|;
      } else {
        i := removed[|removed| - 1];
        removed := removed[..|removed| - 1];
      }
    }

    method PlaceRequest(req: Request, i: nat)
      requires i <= |reqIds| == |outputs| <= |spec|
      modifies this`reqIds, this`outputs, this`spec
      ensures reqIds == if i == |old(reqIds)| then old(reqIds) + [Some(req.id)] else old(reqIds)[i := Some(req.id)]
      ensures outputs == if i == |old(reqIds)| then old(outputs) + [Some(req.outputs)] else old(outputs)[i := Some(req.outputs)]
      ensures spec == if i == |old(reqIds)| then old(spec) + [[]] else old(spec)[i := []]
    {
      if i == |reqIds| {
        reqIds := reqIds + [Some(req.id)];
        outputs := outputs + [Some(req.outputs)];
        spec := spec + [[]];
      } else {
        reqIds := reqIds[i := Some(req.id)];
        outputs := outputs[i := Some(req.outputs)];
        spec := spec[i := []];
      }
    }

    /** Per-index records the request has; a record it lacks is not cleared here. */
    method RecordRequest(req: Request, i: nat)
      modifies this`embeds, this`generators, this`badWords
      ensures embeds == if req.embeds.Some? then old(embeds)[i := req.embeds.value] else old(embeds)
      ensures generators == if req.generator.Some? then old(generators)[i := req.generator.value] else old(generators)
      ensures badWords == if req.badWords.Some? then old(badWords)[i := req.badWords.value] else old(badWords)
    {
      if req.embeds.Some? { embeds := embeds[i := req.embeds.value]; }
      if req.generator.Some? { generators := generators[i := req.generator.value]; }
      if req.badWords.Some? { badWords := badWords[i := req.badWords.value]; }
    }

    method RemoveRequest(id: int) returns (i: Option<nat>)
      requires Valid(S(), maxReqs)
      modifies this
      ensures Valid(S(), maxReqs)
      ensures id !in old(index) ==> i == None && unchanged(this)
      ensures id in old(index) ==> i == Some(old(index)[id]) && old(index)[id] < |old(reqIds)| == |old(outputs)| <= |old(spec)|
                                   && old(index)[id] < |old(rows)| && S() == Removed(old(S()), id)
      ensures id in old(index) ==>
                old(index)[id] < |rows|
                && forall j :: 0 <= j < |rows[old(index)[id]].masked| ==> !rows[old(index)[id]].masked[j]
    {
      hide Valid, Insert, Falses;
      if id !in index { return None; }
      RemoveKeeps(S(), maxReqs, id);
      RemovedLeaves(S(), maxReqs, id);
      ValidSizes(S(), maxReqs);
      var at := index[id];
      index := index - {id};
      removed := Insert(removed, at);
      VacateIndex(at);
      rows := rows[at := rows[at].(blocks := [], lora := 0, masked := Falses(|rows[at].masked|))];
      generators, badWords := generators - {at}, badWords - {at};
      i := Some(at);
    }

    method VacateIndex(at: nat)
      requires at < |reqIds| == |outputs| <= |spec|
      modifies this`reqIds, this`outputs, this`spec
      ensures reqIds == old(reqIds)[at := None] && outputs == old(outputs)[at := None] && spec == old(spec)[at := []]
    {
      reqIds := reqIds[at := None];
      outputs := outputs[at := None];
      spec := spec[at := []];
    }

    method SwapStates(i: nat, j: nat)
      requires Valid(S(), maxReqs) && Live(reqIds, i) && Live(reqIds, j)
      modifies this
      ensures Valid(S(), maxReqs)
      ensures i < |old(reqIds)| == |old(outputs)| <= |old(spec)| && j < |old(reqIds)| <= |old(rows)|
      ensures S() == Swapped(old(S()), i, j)
    {
      hide Valid, MovedRow, SwappedRow, Exchange;
      SwapKeeps(S(), maxReqs, i, j);
      ValidSizes(S(), maxReqs);
      SwapIds(i, j);
      SwapRows(i, j);
      embeds, generators, badWords := Exchange(embeds, i, j), Exchange(generators, i, j), Exchange(badWords, i, j);
      moved := moved + [Swap(i, j)];
    }

    method SwapRows(i: nat, j: nat)
      requires i < |rows| && j < |rows| && i < |spec| && j < |spec|
      modifies this`rows, this`spec
      ensures spec == old(spec)[i := old(spec)[j]][j := old(spec)[i]]
      ensures var n := MaxOf(old(rows)[i].numTokens + |old(spec)[i]|, old(rows)[j].numTokens + |old(spec)[j]|);
              rows == old(rows)[i := MovedRow(old(rows)[i], old(rows)[j], n)][j := SwappedRow(old(rows)[j], old(rows)[i], n)]
    {
      var n := MaxOf(rows[i].numTokens + |spec[i]|, rows[j].numTokens + |spec[j]|);
      spec := spec[i := spec[j]][j := spec[i]];
      rows := rows[i := MovedRow(rows[i], rows[j], n)][j := SwappedRow(rows[j], rows[i], n)];
    }

    method SwapIds(i: nat, j: nat)
      requires i < |reqIds| == |outputs| && j < |reqIds| && reqIds[i].Some? && reqIds[j].Some?
      modifies this`reqIds, this`outputs, this`index
      ensures reqIds == old(reqIds)[i := old(reqIds)[j]][j := old(reqIds)[i]]
      ensures outputs == old(outputs)[i := old(outputs)[j]][j := old(outputs)[i]]
      ensures index == old(index)[old(reqIds)[i].value := j][old(reqIds)[j].value := i]
    {
      var idI, idJ := reqIds[i].value, reqIds[j].value;
      reqIds := reqIds[i := reqIds[j]][j := reqIds[i]];
      outputs := outputs[i := outputs[j]][j := outputs[i]];
      index := index[idI := j][idJ := i];
    }

    /** Moves the request at `last` into the smallest hole. */
    method MoveDown(last: nat)
      requires removed != [] && removed[|removed| - 1] < last < |reqIds| && |reqIds| == |outputs| <= |spec|
               && last < |rows| && reqIds[last].Some?
      modifies this
      ensures S() == MovedDown(old(S()), last, old(removed)[|old(removed)| - 1]) && |removed| == |old(removed)| - 1
    {
      hide MovedRow;
      var empty := removed[|removed| - 1];
      removed := removed[..|removed| - 1];
      MoveIds(last, empty);
      var n := rows[last].numTokens + |spec[last]|;
      spec := spec[empty := spec[last]][last := []];
      rows := rows[empty := MovedRow(rows[empty], rows[last], n)];
      moved := moved + [Down(last, empty)];
      MoveRecords(last, empty);
    }

    method MoveIds(last: nat, empty: nat)
      requires empty < last < |reqIds| && |reqIds| == |outputs| && reqIds[last].Some?
      modifies this`reqIds, this`outputs, this`index
      ensures reqIds == old(reqIds)[empty := old(reqIds)[last]][last := None]
              && index == old(index)[old(reqIds)[last].value := empty]
      ensures outputs == old(outputs)[empty := old(outputs)[last]][last := None]
    {
      var id := reqIds[last].value;
      reqIds := reqIds[empty := Some(id)][last := None];
      outputs := outputs[empty := outputs[last]][last := None];
      index := index[id := empty];
    }

    method MoveRecords(last: nat, empty: nat)
      modifies this`embeds, this`generators, this`badWords
      ensures embeds == if last in old(embeds) then (old(embeds) - {last})[empty := old(embeds)[last]] else old(embeds)
      ensures generators == if last in old(generators) then (old(generators) - {last})[empty := old(generators)[last]]
              else old(generators)
      ensures badWords == if last in old(badWords) then (old(badWords) - {last})[empty := old(badWords)[last]] else old(badWords)
    {
      if last in embeds { embeds := (embeds - {last})[empty := embeds[last]]; }
      if last in generators { generators := (generators - {last})[empty := generators[last]]; }
      if last in badWords { badWords := (badWords - {last})[empty := badWords[last]]; }
    }

    /** Closes the holes from the top of the batch. */
    method Condense()
      requires Valid(S(), maxReqs)
      modifies this
      ensures Condensed(old(S()), S(), maxReqs)
    {
      hide Valid, Sized, Inverse, Owned, Followed, Logged, RowsBeyond, EmbedsFollow, Descending;
      if removed == [] {
        NothingToDo(S(), maxReqs);
        return;
      }
      if |index| == 0 {
        NobodyLeft(S(), maxReqs);
        reqIds, outputs, spec := [], [], [];
        return;
      }
      var n := |index|;
      ghost var last, done := Slide();
      SlideEnds(old(S()), S(), maxReqs, last, done);
      SizedNow(old(S()), S(), maxReqs, last, done);
      hide Condensed, Sliding;
      reqIds, outputs, spec := reqIds[..n], outputs[..n], spec[..n];
    }

    /** Moves top requests into the smallest holes until no hole lies below a request. */
    method Slide() returns (ghost last: nat, ghost done: nat)
      requires Valid(S(), maxReqs) && |index| > 0 && removed != []
      modifies this
      ensures Sliding(old(S()), S(), maxReqs, last, done) && done == |removed| && |index| == |old(index)| <= |reqIds|
    {
      hide Valid, Sliding, MovedDown;
      SlideStarts(S(), maxReqs);
      LastIndex(S(), maxReqs);
      var top: nat := |index| + |removed| - 1;
      done := 0;
      while |removed| > 0
        invariant Sliding(old(S()), S(), maxReqs, top, done) && |index| == |old(index)| > 0
        decreases |removed|
      {
        ghost var s1 := S();
        while top in removed
          invariant S() == s1 && Sliding(old(S()), s1, maxReqs, top, done)
          decreases top
        {
          SkipHole(old(S()), S(), maxReqs, top, done);
          top, done := top - 1, done + 1;
        }
        TopIsLive(old(S()), S(), maxReqs, top, done);
        if removed[|removed| - 1] >= top { break; }
        SlideOne(old(S()), S(), maxReqs, top, done);
        MoveDown(top);
        top := top - 1;
        SizedNow(old(S()), S(), maxReqs, top, done);
      }
      NoneBelow(old(S()), S(), maxReqs, top, done);
      SizedNow(old(S()), S(), maxReqs, top, done);
      last := top;
    }

    /** The next step starts with no holes and no moves on record. */
    method RefreshMetadata()
      requires Packed(S(), maxReqs)
      modifies this`removed, this`moved
      ensures Valid(S(), maxReqs) && S() == old(S()).(removed := [], moved := [])
    {
      removed, moved := [], [];
    }
  }

  // ---- runs in which a request sees what is not its own ----

  /** A request without tokens. */
  function Plain(id: int, disallowed: Option<seq<bool>>, embeds: Option<int>): Request {
    Request(id, Some([]), 0, embeds, [], 0, [], true, Sampling(1.0, 1.0, 1, 0.0, 0.0, 1.0), None, None, disallowed, 0)
  }

  ghost predicate TwoThere(s: State, first: Request, second: Request) {
    Valid(s, 2) && s.index == map[first.id := 0, second.id := 1] && s.removed == [] && |s.reqIds| == 2
    && |s.rows[0].tokens| == |s.rows[1].tokens| == 0 && |s.rows[0].masked| == |s.rows[1].masked| == 2
    && s.rows[0].masked == (if first.disallowed.Some? then first.disallowed.value else [false, false])
    && s.rows[1].masked == (if second.disallowed.Some? then second.disallowed.value else [false, false])
    && Get(s.embeds, 0) == first.embeds && Get(s.embeds, 1) == second.embeds
  }

  ghost predicate Small(req: Request) {
    req == Plain(req.id, req.disallowed, req.embeds) && (req.disallowed.Some? ==> |req.disallowed.value| == 2)
  }

  ghost predicate OneThere(s: State, first: Request) {
    Valid(s, 2) && s.index == map[first.id := 0] && s.removed == [] && |s.reqIds| == 1
    && |s.rows[0].tokens| == |s.rows[1].tokens| == 0 && |s.rows[0].masked| == 2 && s.rows[1].masked == [false, false]
    && s.rows[0].masked == (if first.disallowed.Some? then first.disallowed.value else [false, false])
    && Get(s.embeds, 0) == first.embeds && Get(s.embeds, 1) == None
  }

  lemma FirstFits(first: Request)
    requires Small(first)
    ensures Fits(Start(2, 0, 2), first, 2) && NextIndex(Start(2, 0, 2)) == 0
    ensures forall i :: 0 <= i < 2 ==> |Start(2, 0, 2).rows[i].masked| == 2
    ensures Valid(Added(Start(2, 0, 2), first, 0, 2), 2) ==> OneThere(Added(Start(2, 0, 2), first, 0, 2), first)
  {
    hide Inverse, Holes, Owned;
    StartIsValid(2, 0, 2);
    assert Falses(2) == [false, false];
  }

  lemma SmallMask(req: Request)
    requires Small(req)
    ensures req.disallowed.Some? ==> |req.disallowed.value| == 2
  {
  }

  lemma SecondFits(s: State, first: Request, second: Request)
    requires Small(second) && first.id != second.id && OneThere(s, first)
    ensures Fits(s, second, 2) && NextIndex(s) == 1 && forall i :: 0 <= i < 2 ==> |s.rows[i].masked| == 2
  {
    hide Inverse, Holes, Owned;
  }

  lemma SecondAdded(s: State, first: Request, second: Request)
    requires Small(second) && first.id != second.id && OneThere(s, first) && Valid(Added(s, second, 1, 2), 2)
    ensures TwoThere(Added(s, second, 1, 2), first, second)
  {
    hide Inverse, Holes, Owned;
  }

  /** A batch of two requests in an arena of two. */
  method TwoRequests(first: Request, second: Request) returns (b: InputBatch)
    requires Small(first) && Small(second) && first.id != second.id
    ensures fresh(b) && b.maxReqs == 2 && TwoThere(b.S(), first, second)
  {
    hide Valid, Fits, Small, OneThere, TwoThere;
    b := new InputBatch(2, 0, 2);
    FirstFits(first);
    SmallMask(first);
    SmallMask(second);
    var i := b.AddRequest(first);
    ghost var one := b.S();
    SecondFits(one, first, second);
    i := b.AddRequest(second);
    SecondAdded(one, first, second);
  }

  /** The first request forbids token 0; swapped with one that forbids nothing, it forbids nothing. */
  method MaskLostInSwap() returns (before: seq<bool>, after: seq<bool>)
    ensures before == [true, false] && after == [false, false]
  {
    var b := TwoRequests(Plain(1, Some([true, false]), None), Plain(2, None, None));
    before := b.rows[0].masked;
    b.SwapStates(0, 1);
    after := b.rows[1].masked;
  }

  /** The first of two requests leaves and the other moves down to its index. */
  method FirstLeaves(first: Request, second: Request) returns (b: InputBatch)
    requires Small(first) && Small(second) && first.id != second.id
    ensures fresh(b) && b.maxReqs == 2 && Valid(b.S(), 2) && b.index == map[second.id := 0] && b.removed == []
    ensures |b.rows[0].tokens| == |b.rows[1].tokens| == 0
    ensures b.rows[1].masked == if second.disallowed.Some? then second.disallowed.value else [false, false]
    ensures Get(b.embeds, 0) == if second.embeds.Some? then second.embeds else first.embeds
  {
    hide Valid, Condensed, Removed, Small;
    b := TwoRequests(first, second);
    FirstGone(b.S(), first, second);
    var i := b.RemoveRequest(first.id);
    ghost var s0 := b.S();
    b.Condense();
    Second(s0, b.S(), second.id);
    b.RefreshMetadata();
  }

  lemma FirstGone(s: State, first: Request, second: Request)
    requires TwoThere(s, first, second) && first.id != second.id
    ensures var t := Removed(s, first.id);
            t.index == map[second.id := 1] && |t.rows| == 2 && |t.rows[0].tokens| == |t.rows[1].tokens| == 0
            && t.rows[1].masked == s.rows[1].masked && Get(t.embeds, 0) == first.embeds && Get(t.embeds, 1) == second.embeds
  {
    hide Valid, Insert, Falses;
    ValidSizes(s, 2);
    RowCount(s, 2);
    OneOfTwo(first.id, second.id);
    assert s.index[first.id] == 0;
  }

  lemma RowCount(s: State, max: nat)
    requires Valid(s, max)
    ensures |s.rows| == max
  {
  }

  lemma OneOfTwo(a: int, b: int)
    requires a != b
    ensures map[a := 0 as nat, b := 1] - {a} == map[b := 1]
  {
  }

  lemma Second(s0: State, s: State, id: int)
    requires Condensed(s0, s, 2) && s0.index == map[id := 1]
    ensures s.index == map[id := 0] && |s.index| == 1
    ensures Packed(s, 2) && |s.rows| == |s0.rows| == 2 && s.rows[1] == s0.rows[1] && |s.rows[0].tokens| == |s.rows[1].tokens|
    ensures Get(s.embeds, 0) == if 1 in s0.embeds then Get(s0.embeds, 1) else Get(s0.embeds, 0)
  {
    hide ViewAt, Replay, Packed, Followed;
    assert id in s.index;
    PackedRows(s, 2);
    OnlyOne(s, id);
  }

  lemma OnlyOne(s: State, id: int)
    requires Packed(s, 2) && s.index.Keys == {id}
    ensures s.index == map[id := 0]
  {
    hide Owned, Sized;
    assert |s.index| == |{id}| == 1;
    assert s.index[id] < |s.reqIds|;
  }

  lemma PackedRows(s: State, max: nat)
    requires Packed(s, max)
    ensures |s.rows| == max && forall i, j :: 0 <= i < max && 0 <= j < max ==> |s.rows[i].tokens| == |s.rows[j].tokens|
  {
  }

  /** A newcomer that forbids nothing gets the mask of the request that moved away. */
  method MaskOutlivesCondense() returns (mask: seq<bool>)
    ensures mask == [true, false]
  {
    var b := FirstLeaves(Plain(1, None, None), Plain(2, Some([true, false]), None));
    var i := b.AddRequest(Plain(3, None, None));
    mask := b.rows[i].masked;
  }

  /** A request without embeddings moves down to those of the one that left. */
  method EmbedsInherited() returns (embeds: Option<int>)
    ensures embeds == Some(5)
  {
    var b := FirstLeaves(Plain(1, None, Some(5)), Plain(2, None, None));
    embeds := Get(b.embeds, 0);
  }
}
