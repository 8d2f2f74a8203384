/** The helper that ties contexts, rows and proof buffers together. */
module CommonSampler {
  import opened Circular
  import opened ContextRing
  import opened Rows
  import opened ProofRing
  import opened StepEnd
  import opened StepFinish
  import opened SamplerState
  import Eviction

  /** The longest-running live sequences outside the batch, oldest first. */
  ghost predicate FirstByAge(l: Eviction.Lending, sids: seq<int>, gone: seq<int>) {
    Eviction.Aged(l, gone) && (forall a :: a in gone ==> a in l.rowOf && a !in sids)
    && forall a, b :: a in gone && b in l.rowOf && b !in gone && b !in sids ==> Eviction.Before(l, a, b)
  }

  lemma FirstOf(l: Eviction.Lending, sids: seq<int>, order: seq<int>, n: nat)
    requires Eviction.Aged(l, order) && n <= |order| && forall a :: a in order <==> a in l.rowOf && a !in sids
    ensures FirstByAge(l, sids, order[..n])
  {
    hide Eviction.Before;
    forall a, b | a in order[..n] && b in l.rowOf && b !in order[..n] && b !in sids
      ensures Eviction.Before(l, a, b)
    {
      var i :| 0 <= i < n && order[..n][i] == a;
      assert order == order[..n] + order[n..];
      assert b in order && b in order[n..];
      var j :| 0 <= j < |order[n..]| && order[n..][j] == b;
      assert order[i] == a && order[n + j] == b;
    }
  }

  lemma FirstDistinct(l: Eviction.Lending, sids: seq<int>, gone: seq<int>)
    requires FirstByAge(l, sids, gone)
    ensures DistinctIds(gone) && forall i :: 0 <= i < |gone| ==> gone[i] in l.rowOf && gone[i] !in sids
  {
    hide Eviction.Before;
    forall i | 0 <= i < |gone|
      ensures gone[i] in l.rowOf && gone[i] !in sids
    {
      var a := gone[i];
      assert a in gone;
    }
  }

  lemma WithoutNext<T>(m: map<int, T>, gone: seq<int>, sid: int)
    ensures m - (set a | a in []) == m
    ensures m - (set a | a in gone + [sid]) == (m - (set a | a in gone)) - {sid}
  {
    assert (set a | a in gone + [sid]) == (set a | a in gone) + {sid};
  }

  lemma OneListing(l: Eviction.Lending, live: seq<int>)
    requires Eviction.ValidLending(l) && Eviction.IsListing(l, live)
    ensures DistinctIds(live) && forall other :: Eviction.IsListing(l, other) ==> other == live
  {
    forall other | Eviction.IsListing(l, other)
      ensures other == live
    {
      Eviction.ListingUnique(l, live, other);
    }
  }

  /** Whether a listed sequence will ask for a prompt, told from the queue beforehand. */
  lemma Asks<D>(l: Eviction.Lending, live: seq<int>, queue: Eviction.Queue, sids: seq<int>, i: nat, known: set<int>, s: World<D>)
    requires i < |sids| && DistinctIds(queue.live) && l.rowOf == s.pool.rowOf && l.free == s.pool.free
             && Split(l.rowOf, l.free, |l.steps|)
    requires Eviction.IsListing(l, Eviction.VisitAll(queue, sids[..i]).live)
    ensures DistinctIds(sids) && |l.steps| > 0 ==>
              (Takes(s, sids[i]) <==> Eviction.Takes(queue, Eviction.Admissions(queue, sids[..i]), sids[i]))
    ensures Takes(s, sids[i]) ==> |l.steps| > 0 && sids[i] !in s.pool.rowOf
  {
    hide Eviction.Takes, Eviction.Visit, Eviction.Before;
    SomeRow(l.rowOf, l.free, |l.steps|);
    if DistinctIds(sids) { Eviction.WithoutRow(queue, sids, i); }
  }

  lemma SomeRow(rowOf: map<int, nat>, free: seq<nat>, max: nat)
    requires Split(rowOf, free, max)
    ensures max > 0 <==> free != [] || rowOf != map[]
  {
    if max > 0 {
      var r: nat := 0;
      assert r in free || Lent(rowOf, r);
    }
    if free != [] { assert free[0] < max; }
    HasElement(rowOf.Keys);
    assert rowOf != map[] ==> rowOf.Keys != {};
  }

  lemma ClearedRows(rowOf: map<int, nat>, free: seq<nat>, max: nat)
    requires Split(rowOf, free, max)
    ensures forall a :: a in rowOf ==> rowOf[a] < max
  {
  }

  lemma HotCachesLast<D>(s: World<D>, was: Caches, caches: Caches, batch: Batch, values: seq<Entry<D>>, w: nat)
    requires w > 0
    ensures HotWorld(s.(pool := s.pool.(caches := caches)), caches, batch, values, w) == HotWorld(s, caches, batch, values, w)
  {
  }

  class Helper<D(!new)> {
    const ctx: Contexts
    const rows: RowManager
    const rings: RingBuffers<D>
    const eos: int
    var params: map<int, Snapshot<D>>

    ghost predicate Valid()
      reads this, ctx, rows, rings
    {
      ctx.Valid() && rows.Valid() && rings.Valid()
      && rings.maxRows == rows.maxRows && rings.w == ctx.w
      && ctx.caches.Keys == rows.rowOf.Keys
      && forall sid :: sid in rows.rowOf ==> rings.clean[rows.rowOf[sid]]
    }

    /** Between steps every ring shows its archive, too. */
    ghost predicate Steady()
      reads this, ctx, rows, rings
    {
      Valid() && InStep(ctx.caches, ctx.w)
    }

    ghost function Pool(): Pool
      reads this, ctx, rows, rings
    {
      StepEnd.Pool(ctx.caches, rows.rowOf, rows.free, rings.steps)
    }

    ghost function State(): World<D>
      reads this, ctx, rows, rings
    {
      World(Pool(), Memory(rings.columns, rings.logs, rings.params, rings.lengths))
    }

    /** What decides who gives way when rows run out. */
    ghost function Lending(): Eviction.Lending
      reads this, rows, rings
    {
      Eviction.Lending(rows.rowOf, rows.free, rows.order, rows.nextId, rings.steps)
    }

    function BlankColumn(): seq<Entry<D>> { Blanks(rings.w, rings.Blank()) }

    ghost function ParamsOf(sid: int): Option<Snapshot<D>> reads this { if sid in params then Some(params[sid]) else None }

    constructor (w: nat, page: nat, maxRows: nat, zero: D, fastpath: bool, eos: int)
      requires w > 0 && page > 0
      ensures Steady() && rows.rowOf == map[] && rings.maxRows == maxRows && ctx.w == w && this.eos == eos
      ensures fresh(ctx) && fresh(rows) && fresh(rings)
    {
      ctx := new Contexts(w, page);
      rows := new RowManager(maxRows);
      rings := new RingBuffers(w, maxRows, zero, fastpath);
      this.eos := eos;
      params := map[];
    }

    method FreeSequence(sid: int)
      requires Valid()
      modifies this`params, ctx`caches, rows, rings
      ensures Valid() && State() == Freed(old(State()), sid, BlankColumn()) && params == old(params) - {sid}
      ensures rings.hostOk == old(rings.hostOk) && (old(Steady()) ==> Steady())
      ensures sid in old(rows.rowOf) ==> Lending() == Eviction.Dropped(old(Lending()), sid)
    {
      hide Split, Ordered, RowShows, Blanks, RingShows;
      ClearedRows(rows.rowOf, rows.free, rows.maxRows);
      var row := rows.FreeRow(sid);
      if row.Some? { rings.ClearRow(row.value); }
      ctx.caches := ctx.caches - {sid};
      params := params - {sid};
    }

    /** Gives `sid` the row freed longest ago, if any is free; without a prompt it ends there. */
    method Admit(sid: int, prompts: map<int, seq<int>>) returns (taken: bool, ok: bool)
      requires Valid() && sid !in rows.rowOf
      modifies ctx`caches, rows, rings
      ensures rings.hostOk == old(rings.hostOk) && (taken <==> old(rows.free) != []) && (ok <==> taken ==> sid in prompts)
      ensures !taken ==> Valid() && State() == old(State()) && rows.order == old(rows.order) && Lending() == old(Lending())
      ensures taken && ok ==>
                Valid() && State() == Given(old(State()), sid, PromptOf(prompts, sid), ctx.w, BlankColumn(), ParamsOf(sid))
                && Lending() == Eviction.Lent(old(Lending()), sid)
      ensures ok && old(Steady()) ==> Steady()
      ensures !ok ==> sid in rows.rowOf && sid !in ctx.caches
    {
      hide Split, Ordered, RowShows, Blanks, InitCache, RingShows;
      LentElsewhere(rows.rowOf, rows.free, rows.maxRows);
      var row := rows.AllocateRow(sid);
      taken, ok := row.Some?, true;
      if taken { ok := Prepare(sid, prompts, row.value); }
    }

    /** Clears a row and starts the sequence's context in it. */
    method Prepare(sid: int, prompts: map<int, seq<int>>, row: nat) returns (ok: bool)
      requires ctx.Valid() && rings.Valid() && row < rings.maxRows && rings.w == ctx.w
      modifies ctx`caches, rings
      ensures ctx.Valid() && rings.Valid() && rings.hostOk == old(rings.hostOk) && (ok <==> sid in prompts)
      ensures !ok ==> ctx.caches == old(ctx.caches)
      ensures ok ==>
                rings.clean == old(rings.clean)[row := true] && rings.steps == old(rings.steps)[row := 0]
                && ctx.caches == old(ctx.caches)[sid := InitCache(prompts[sid], ctx.w)]
                && Memory(rings.columns, rings.logs, rings.params, rings.lengths)
                   == Wipe(old(Memory(rings.columns, rings.logs, rings.params, rings.lengths)), row, BlankColumn(), ParamsOf(sid))
      ensures old(InStep(ctx.caches, ctx.w)) ==> InStep(ctx.caches, ctx.w)
    {
      hide RowShows, Blanks, InitCache, RingShows;
      rings.ClearRow(row);
      if sid !in prompts { return false; }
      ctx.InitSequenceCache(sid, prompts[sid]);
      if sid in params { rings.WriteParams(row, params[sid]); }
      ok := true;
    }

    /** A row for `sid`. Only one that takes a row needs a prompt; without it the call fails, the row
        lent but no context behind it. */
    method EnsureRow(sid: int, prompts: map<int, seq<int>>) returns (ok: bool)
      requires Valid()
      modifies this`params, ctx`caches, rows, rings
      ensures rings.hostOk == old(rings.hostOk) && (ok <==> sid in prompts || !Takes(old(State()), sid))
      ensures ok ==> Valid() && Eviction.Asked(old(Lending()), Lending(), sid)
                     && Ensured(old(State()), old(rows.order), State(), sid, PromptOf(prompts, sid), ctx.w,
                                BlankColumn(), old(ParamsOf(sid)))
      ensures ok && old(Steady()) ==> Steady()
      ensures !ok ==> sid in rows.rowOf && sid !in ctx.caches
    {
      hide Split, Ordered, RowShows, Blanks, InitCache, RingShows, Given, Freed, Oldest, Eviction.Lent, Eviction.Dropped;
      if sid in rows.rowOf { return true; }
      var taken;
      taken, ok := Admit(sid, prompts);
      if !taken {
        var oldest := rows.GetOldestSequence(rings.steps);
        if oldest.Some? {
          ghost var before := State();
          VictimGone(before, rows.order, oldest.value.0, BlankColumn());
          FreeSequence(oldest.value.0);
          taken, ok := Admit(sid, prompts);
          assert ok ==> Evicts(before, old(rows.order), State(), oldest.value.0, sid, PromptOf(prompts, sid), ctx.w,
                               BlankColumn(), old(ParamsOf(sid)));
        }
      }
    }

    /** Rows for a whole batch. When enough are free every listed sequence ends up with one and
        none loses its own; otherwise longest-running ones give way, even listed ones, and all
        listed ones end with a row exactly when the ranks of the live ones allow it. It fails exactly
        when one that takes a row, be it for the second time, has no prompt. */
    method EnsureRows(sids: seq<int>, prompts: map<int, seq<int>>) returns (ok: bool)
      requires Valid()
      modifies this`params, ctx`caches, rows, rings
      ensures rings.hostOk == old(rings.hostOk)
      ensures forall live :: DistinctIds(sids) && Eviction.IsListing(old(Lending()), live) ==>
                (ok <==> rows.maxRows == 0 || Eviction.Supplied(Eviction.Queue(live, old(|rows.free|)), sids, prompts.Keys))
      ensures |Lacking(sids, old(rows.rowOf))| <= old(|rows.free|) && Lacking(sids, old(rows.rowOf)) <= prompts.Keys ==> ok
      ensures !ok ==> exists sid :: sid in sids && sid !in prompts && sid in rows.rowOf && sid !in ctx.caches
      ensures ok ==>
                Valid() && Whole(old(State())) && Whole(State()) && OwnOnly(old(State()), State(), prompts, ctx.w, BlankColumn())
                && (|Lacking(sids, old(rows.rowOf))| <= old(|rows.free|) ==>
                      (forall i :: 0 <= i < |sids| ==> sids[i] in rows.rowOf)
                      && forall a :: a in old(rows.rowOf) ==> a in rows.rowOf && rows.rowOf[a] == old(rows.rowOf)[a])
      ensures ok ==>
                forall live :: DistinctIds(sids) && Eviction.IsListing(old(Lending()), live) ==>
                  ((forall i :: 0 <= i < |sids| ==> sids[i] in rows.rowOf)
                   <==> Eviction.Served(Eviction.Queue(live, old(|rows.free|)), sids))
      ensures ok && old(Steady()) ==> Steady()
    {
      hide Ordered, RowShows, Ensured, OwnOnly, Lacking, Split, InStep, Takes, DistinctIds, Ensuring;
      hide Eviction.IsListing, Eviction.Asked, Eviction.Visit, Eviction.Served, Eviction.Supplied, Eviction.Takes,
           Eviction.Admissions;
      ValidWhole();
      ghost var live := Eviction.ListingExists(Lending());
      ghost var queue := Eviction.Queue(live, |rows.free|);
      OneListing(Lending(), live);
      EnsuringStarts(State(), sids, prompts, ctx.w, BlankColumn());
      Eviction.SuppliedNone(queue, prompts.Keys);
      for i := 0 to |sids|
        invariant Valid() && rings.hostOk == old(rings.hostOk) && (old(Steady()) ==> Steady())
        invariant Eviction.IsListing(Lending(), Eviction.VisitAll(queue, sids[..i]).live)
        invariant |rows.free| == Eviction.VisitAll(queue, sids[..i]).free
        invariant DistinctIds(sids) && rows.maxRows > 0 ==> Eviction.Supplied(queue, sids[..i], prompts.Keys)
        invariant Ensuring(old(State()), State(), sids, i, prompts, ctx.w, BlankColumn())
      {
        ghost var before, order, given, lending := State(), rows.order, ParamsOf(sids[i]), Lending();
        Asks(lending, live, queue, sids, i, prompts.Keys, before);
        Eviction.SuppliedNext(queue, sids, i, prompts.Keys);
        if |Lacking(sids, old(rows.rowOf))| <= old(|rows.free|) && Lacking(sids, old(rows.rowOf)) <= prompts.Keys {
          EnsuringServes(old(State()), before, sids, i, prompts, ctx.w, BlankColumn());
        }
        ok := EnsureRow(sids[i], prompts);
        if !ok { return; }
        assert sids[..i + 1][..i] == sids[..i];
        Eviction.AskingVisits(lending, Lending(), Eviction.VisitAll(queue, sids[..i]).live, sids[i]);
        EnsuringNext(old(State()), before, order, State(), sids, i, prompts, ctx.w, BlankColumn(), given);
      }
      assert sids[..|sids|] == sids;
      ok := true;
      EnsuringEnds(old(State()), State(), sids, prompts, ctx.w, BlankColumn());
      if DistinctIds(sids) { Eviction.ListedExactly(Lending(), queue, sids); }
    }

    /** Live sequences by age, as sorting by step count and allocation number leaves them. */
    method ByAge(ids: set<int>) returns (order: seq<int>)
      requires Valid() && ids <= rows.rowOf.Keys
      ensures Eviction.Aged(Lending(), order) && |order| == |ids| && forall a :: a in order <==> a in ids
    {
      hide RowShows, Split, Ordered, Eviction.Before, Eviction.Aged;
      var lending := Eviction.Lending(rows.rowOf, rows.free, rows.order, rows.nextId, rings.steps);
      var left := ids;
      order := [];
      Eviction.NoneAged(lending);
      while left != {}
        invariant left <= ids && |order| == |ids| - |left| && Eviction.Aged(lending, order)
        invariant forall a :: a in order <==> a in ids - left
        decreases |left|
      {
        var a := Pick(left);
        Eviction.InsertAged(lending, order, a);
        order := Eviction.InsertByAge(lending, order, a);
        left := left - {a};
      }
    }

    /** Frees the longest-running sequences outside the batch, as many as rows are short. */
    method MakeRoom(sids: seq<int>, need: nat) returns (gone: seq<int>)
      requires Valid()
      modifies this`params, ctx`caches, rows, rings
      ensures Valid() && rings.hostOk == old(rings.hostOk) && (old(Steady()) ==> Steady())
      ensures State() == FreedEach(old(State()), gone, BlankColumn()) && params == old(params) - (set a | a in gone)
      ensures FirstByAge(old(Lending()), sids, gone)
      ensures |gone| == Least(need - old(|rows.free|), |old(rows.rowOf).Keys - (set a | a in sids)|)
    {
      hide RowShows, Split, Ordered, InStep, FreedEach, Eviction.Before, Eviction.Aged, FirstByAge, Blanks;
      var short := need - |rows.free|;
      var order := ByAge(rows.rowOf.Keys - (set a | a in sids));
      FirstOf(Lending(), sids, order, Least(short, |order|));
      FreeFirst(order, Least(short, |order|));
      gone := order[..Least(short, |order|)];
    }

    method FreeFirst(order: seq<int>, n: nat)
      requires Valid() && n <= |order|
      modifies this`params, ctx`caches, rows, rings
      ensures Valid() && rings.hostOk == old(rings.hostOk) && (old(Steady()) ==> Steady())
      ensures State() == FreedEach(old(State()), order[..n], BlankColumn())
      ensures params == old(params) - (set a | a in order[..n])
    {
      hide RowShows, Split, Ordered, Freed, InStep, FreedEach, Eviction.Dropped, Blanks;
      WithoutNext(params, [], 0);
      FreedEachNext(State(), [], 0, BlankColumn());
      for i := 0 to n
        invariant Valid() && rings.hostOk == old(rings.hostOk) && (old(Steady()) ==> Steady())
        invariant State() == FreedEach(old(State()), order[..i], BlankColumn())
        invariant params == old(params) - (set a | a in order[..i])
      {
        assert order[..i + 1] == order[..i] + [order[i]];
        FreedEachNext(old(State()), order[..i], order[i], BlankColumn());
        WithoutNext(old(params), order[..i], order[i]);
        FreeSequence(order[i]);
      }
    }

    /** How the sampler gets rows for a batch: unlisted sequences give way first. Every listed one
        ends with a row exactly when there are as many rows as distinct ids; then listed ones keep
        what they had or start over in an empty row, and only the longest-running unlisted ones
        lose theirs, no more than needed. */
    method AllocateRows(sids: seq<int>, texts: int -> seq<int>) returns (ok: bool, gone: seq<int>)
      requires Valid()
      modifies this`params, ctx`caches, rows, rings
      ensures rings.hostOk == old(rings.hostOk)
      ensures ok && (forall i :: 0 <= i < |sids| ==> sids[i] in rows.rowOf) <==> |set a | a in sids| <= rows.maxRows
      ensures FirstByAge(old(Lending()), sids, gone)
      ensures |set a | a in sids| <= rows.maxRows ==>
                Valid() && Whole(old(State())) && Whole(State())
                && |gone| == (if |Lacking(sids, old(rows.rowOf))| <= old(|rows.free|) then 0
                              else |Lacking(sids, old(rows.rowOf))| - old(|rows.free|))
                && (forall a :: a in old(rows.rowOf) && a !in gone ==> Same(old(State()), State(), a))
                && (forall a :: a in sids && a !in old(rows.rowOf) ==> Restarted(State(), a, texts(a), ctx.w, BlankColumn()))
                && (forall a :: a in rows.rowOf <==> a in sids || (a in old(rows.rowOf) && a !in gone))
      ensures ok && old(Steady()) ==> Steady()
    {
      hide RowShows, Split, Ordered, InStep, FreedEach, Same, Restarted, OwnOnly, FirstByAge;
      hide Eviction.Served, Eviction.Supplied, Eviction.IsListing;
      var lacking := Lacking(sids, rows.rowOf);
      var prompts := map a | a in lacking :: texts(a);
      ValidWhole();
      gone := MakeRoom(sids, |lacking|);
      ghost var mid := State();
      FirstDistinct(old(Lending()), sids, gone);
      RoomMade(old(State()), sids, gone, BlankColumn());
      ok := EnsureRows(sids, prompts);
      if ok {
        ValidWhole();
        if forall i :: 0 <= i < |sids| ==> sids[i] in rows.rowOf { NotMoreThanRows(State(), sids); }
        RoomForAll(old(State()), sids);
        if |set a | a in sids| <= rows.maxRows {
          Settled(old(State()), mid, State(), sids, gone, texts, prompts, ctx.w, BlankColumn());
        }
      } else {
        RoomForAll(old(State()), sids);
      }
    }

    method CheckEos(batch: Batch)
      requires Valid()
      modifies this`params, ctx`caches, rows, rings
      ensures Valid() && State() == FreedEos(old(State()), batch, eos, BlankColumn()) && rings.hostOk == old(rings.hostOk)
      ensures Whole(old(State())) && Whole(State())
              && forall r: nat :: r < rings.maxRows ==>
                   At(State(), r) == if GivenUp(old(rows.rowOf), batch, eos, r) then Blank(BlankColumn(), None)
                       else At(old(State()), r)
      ensures old(Steady()) ==> Steady()
    {
      hide RowShows, Split, Ordered, Freed, InStep, Blanks, At, Whole;
      ValidWhole();
      FreedRows(State(), batch, eos, BlankColumn());
      for i := 0 to |batch|
        invariant Valid() && State() == FreedEos(old(State()), batch[..i], eos, BlankColumn())
                  && rings.hostOk == old(rings.hostOk)
        invariant old(Steady()) ==> Steady()
      {
        assert batch[..i + 1][..i] == batch[..i];
        if batch[i].1 == eos { FreeSequence(batch[i].0); }
      }
      assert batch[..|batch|] == batch;
    }

    /** The deferred work of one sequence; yields the proof that fell due, if any. */
    method ArchiveAndCheckHost(sid: int, toks: seq<int>) returns (due: seq<(int, nat)>)
      requires Valid()
      modifies this`params, ctx`caches, rows, rings
      ensures Valid() && rings.hostOk == old(rings.hostOk)
      ensures (State(), due) == HostedToks(old(State()), ctx.w, eos, sid, toks, BlankColumn())
    {
      hide RowShows, Split, Ordered, Freed, Blanks, InStep;
      if sid !in ctx.caches { return []; }
      var count := ctx.caches[sid].genCount;
      ctx.caches := ctx.caches[sid := ArchiveList(ctx.caches[sid], toks)];
      if toks != [] && toks[|toks| - 1] == eos {
        FreeSequence(sid);
        return [];
      }
      due := [];
      if count > 0 && count % ctx.w == 0 {
        var row := GetRow(rows.rowOf, sid);
        if row.Some? { due := [(sid, row.value)]; }
      }
    }

    /** The proofs due: read from the host mirror while it is in step, else from the device. */
    method CheckPowSolutions(sids: seq<int>) returns (due: seq<(int, nat)>)
      requires Valid()
      ensures due == if rings.hostOk then Due(sids, rows.rowOf, rings.steps, ctx.w)
                     else Paired(sids, LentRows(sids, rows.rowOf), rings.steps, ctx.w)
    {
      hide RowShows, Split, Ordered;
      var w, rowOf, steps, host := ctx.w, rows.rowOf, rings.steps, rings.stepsHost;
      due := [];
      if rings.hostOk {
        for i := 0 to |sids|
          invariant due == Due(sids[..i], rowOf, steps, w)
        {
          assert sids[..i + 1][..i] == sids[..i];
          var row := GetRow(rowOf, sids[i]);
          if row.None? { continue; }
          if AtBoundary(host, row.value, w) { due := due + [(sids[i], row.value)]; }
        }
        assert sids[..|sids|] == sids;
        return;
      }
      var listed: seq<nat> := [];
      for i := 0 to |sids|
        invariant listed == LentRows(sids[..i], rowOf)
      {
        assert sids[..i + 1][..i] == sids[..i];
        var row := GetRow(rowOf, sids[i]);
        if row.Some? { listed := listed + [row.value]; }
      }
      assert sids[..|sids|] == sids;
      for i := 0 to |listed|
        invariant due == Paired(sids, listed[..i], steps, w)
      {
        assert listed[..i + 1][..i] == listed[..i];
        if AtBoundary(steps, listed[i], w) { due := due + [(sids[i], listed[i])]; }
      }
      assert listed[..|listed|] == listed;
    }

    /** The context window of each listed sequence, which its next step message hashes. */
    method ContextWindows(sids: seq<int>) returns (out: seq<seq<int>>)
      requires Steady() && forall i :: 0 <= i < |sids| ==> sids[i] in rows.rowOf
      ensures |out| == |sids|
      ensures forall i :: 0 <= i < |sids| ==> sids[i] in ctx.caches && out[i] == MessageWindow(ctx.caches[sids[i]].archive, ctx.w)
    {
      hide RowShows, Split, Ordered, InStep, MessageWindow;
      out := ctx.GetContextWindows(sids);
    }

    /** The buffer writes of a step: one entry for each listed row, and the counters advance. */
    method CommitStep(batch: Batch, values: seq<Entry<D>>)
      requires Valid() && DistinctIds(Ids(batch)) && |values| == |batch|
               && forall i :: 0 <= i < |batch| ==> batch[i].0 in rows.rowOf
      modifies rings
      ensures Valid() && rings.hostOk == old(rings.hostOk)
      ensures State() == HotWorld(old(State()), ctx.caches, batch, values, ctx.w)
    {
      hide RowShows, Split, Ordered;
      var ids := Ids(batch);
      LentInOrder(ids, rows.rowOf, rows.free, rows.maxRows);
      var listed := LentRows(ids, rows.rowOf);
      rings.Commit(listed, values, Some(listed));
    }

    /** A decode step that archives its tokens at once. */
    method DecodeStep(batch: Batch, values: seq<Entry<D>>) returns (flip: bool, due: seq<(int, nat)>)
      requires Valid() && DistinctIds(Ids(batch)) && |values| == |batch|
               && forall i :: 0 <= i < |batch| ==> batch[i].0 in rows.rowOf
      modifies this`params, ctx, rows, rings
      ensures Valid() && rings.hostOk == old(rings.hostOk) && (old(Steady()) ==> Steady())
      ensures State() == FreedEos(HotWorld(old(State()), UpdateAll(old(ctx.caches), ctx.w, batch), batch, values,
                                           ctx.w), batch, eos, BlankColumn())
      ensures Extended(old(ctx.caches), ctx.caches, batch)
      ensures Ready(old(State()), batch, values, ctx.w)
              && AfterStep(old(State()), State(), batch, values, ctx.w, eos, BlankColumn())
      ensures due == if rings.hostOk then Due(Ids(batch), rows.rowOf, rings.steps, ctx.w)
                     else Paired(Ids(batch), LentRows(Ids(batch), rows.rowOf), rings.steps, ctx.w)
      ensures ctx.prevMaxLen == LongestUpdated(old(ctx.caches), ctx.w, batch)
      ensures flip <==> old(ctx.prevMaxLen) / ctx.page != ctx.prevMaxLen / ctx.page
    {
      hide RowShows, Split, Ordered, UpdateAll, FreedEos, FreeEos, HotWorld, AfterStep, Ready, Due, LongestUpdated,
           InStep, HostAll, Extended;
      AllKeys(ctx.caches, ctx.w, batch);
      ValidReady(batch, values);
      StepRecords(State(), UpdateAll(ctx.caches, ctx.w, batch), batch, values, ctx.w, eos, BlankColumn());
      StepExtended(batch, values);
      StepSteady(batch, values);
      ghost var hot := HotWorld(State(), UpdateAll(ctx.caches, ctx.w, batch), batch, values, ctx.w);
      flip := ctx.UpdateCaches(batch);
      CommitStep(batch, values);
      HotCachesLast(old(State()), old(State()).pool.caches, ctx.caches, batch, values, ctx.w);
      assert State() == hot;
      CheckEos(batch);
      due := CheckPowSolutions(Ids(batch));
    }

    /** A decode step that leaves the archive and the boundary tests to the host. */
    method DecodeStepDeferred(batch: Batch, values: seq<Entry<D>>) returns (flip: bool, due: seq<(int, nat)>)
      requires Valid() && DistinctIds(Ids(batch)) && |values| == |batch|
               && forall i :: 0 <= i < |batch| ==> batch[i].0 in rows.rowOf
      modifies this`params, ctx, rows, rings
      ensures Valid() && rings.hostOk == old(rings.hostOk) && (old(Steady()) ==> Steady())
      ensures (State(), due) == HostedAll(HotWorld(old(State()), DeviceAll(old(ctx.caches), ctx.w, batch), batch, values, ctx.w),
                                          ctx.w, eos, batch, BlankColumn())
      ensures Extended(old(ctx.caches), ctx.caches, batch)
      ensures Ready(old(State()), batch, values, ctx.w)
              && AfterStep(old(State()), State(), batch, values, ctx.w, eos, BlankColumn())
      ensures ctx.prevMaxLen == LongestCounted(old(ctx.caches), ctx.w, batch)
      ensures flip <==> old(ctx.prevMaxLen) / ctx.page != ctx.prevMaxLen / ctx.page
    {
      hide RowShows, Split, Ordered, DeviceAll, HostedAll, HostAll, HotWorld, AfterStep, Ready, LongestCounted, InStep,
           FreeEos, Extended;
      AllKeys(ctx.caches, ctx.w, batch);
      ValidReady(batch, values);
      DeferredRecords(State(), DeviceAll(ctx.caches, ctx.w, batch), batch, values, ctx.w, eos, BlankColumn());
      StepExtended(batch, values);
      StepSteady(batch, values);
      ghost var hot := HotWorld(State(), DeviceAll(ctx.caches, ctx.w, batch), batch, values, ctx.w);
      flip := ctx.UpdateCachesDeviceOnly(batch);
      CommitStep(batch, values);
      HotCachesLast(old(State()), old(State()).pool.caches, ctx.caches, batch, values, ctx.w);
      assert State() == hot;
      due := FinishOnHost(batch);
    }

    /** The deferred work of a batch, one committed token after the other. */
    method FinishOnHost(batch: Batch) returns (due: seq<(int, nat)>)
      requires Valid()
      modifies this`params, ctx`caches, rows, rings
      ensures Valid() && rings.hostOk == old(rings.hostOk)
      ensures (State(), due) == HostedAll(old(State()), ctx.w, eos, batch, BlankColumn())
    {
      hide RowShows, Split, Ordered, HostedToks, Blanks, InStep;
      due := [];
      for i := 0 to |batch|
        invariant Valid() && rings.hostOk == old(rings.hostOk)
        invariant (State(), due) == HostedAll(old(State()), ctx.w, eos, batch[..i], BlankColumn())
      {
        assert batch[..i + 1][..i] == batch[..i];
        var more := ArchiveAndCheckHost(batch[i].0, [batch[i].1]);
        due := due + more;
      }
      assert batch[..|batch|] == batch;
    }

    /** Forgets everything at once; rows keep stale statistics and lengths until they are lent again. */
    method ResetSamplerState()
      requires Valid()
      modifies this`params, ctx`caches, rows, rings
      ensures Steady() && Pool() == StepEnd.Pool(map[], map[], Range(rings.maxRows), Zeros(rings.maxRows)) && params == map[]
      ensures forall r :: 0 <= r < rings.maxRows ==> rings.Row(r) == AfterReset(old(rings.Row(r)), rings.zero)
      ensures rings.hostOk == old(rings.hostOk) && rings.logs == old(rings.logs)
    {
      ctx.caches := map[];
      params := map[];
      rows.Reset();
      rings.Reset();
    }

    lemma ValidWhole()
      requires Valid()
      ensures Whole(State()) && Wide(State(), ctx.w)
    {
    }

    lemma ValidReady(batch: Batch, values: seq<Entry<D>>)
      requires Valid() && DistinctIds(Ids(batch)) && |values| == |batch|
               && forall i :: 0 <= i < |batch| ==> batch[i].0 in rows.rowOf
      ensures Ready(State(), batch, values, ctx.w)
    {
      hide RowShows, Ordered, Whole, Wide;
      ValidWhole();
    }

    /** Either kind of step leaves every context that goes on with its token in the archive. */
    lemma StepExtended(batch: Batch, values: seq<Entry<D>>)
      requires Valid() && DistinctIds(Ids(batch))
      ensures var a := HotWorld(State(), UpdateAll(ctx.caches, ctx.w, batch), batch, values, ctx.w);
              Extended(ctx.caches, FreedEos(a, batch, eos, BlankColumn()).pool.caches, batch)
      ensures var b := HotWorld(State(), DeviceAll(ctx.caches, ctx.w, batch), batch, values, ctx.w);
              Extended(ctx.caches, HostedAll(b, ctx.w, eos, batch, BlankColumn()).0.pool.caches, batch)
    {
      hide Extended, FreedEos, HostedAll, FreeEos, HostAll, UpdateAll, DeviceAll, RowShows, Split, Ordered;
      var a := HotWorld(State(), UpdateAll(ctx.caches, ctx.w, batch), batch, values, ctx.w);
      var b := HotWorld(State(), DeviceAll(ctx.caches, ctx.w, batch), batch, values, ctx.w);
      FreedEosPool(a, batch, eos, BlankColumn());
      HostedAllPool(b, ctx.w, eos, batch, BlankColumn());
      StepExtends(Pool(), ctx.w, eos, batch);
    }

    /** Either kind of step keeps the rings in step with the archives. */
    lemma StepSteady(batch: Batch, values: seq<Entry<D>>)
      requires Valid()
      ensures InStep(ctx.caches, ctx.w) ==>
                InStep(FreedEos(HotWorld(State(), UpdateAll(ctx.caches, ctx.w, batch), batch, values, ctx.w), batch,
                                eos, BlankColumn()).pool.caches, ctx.w)
                && InStep(HostedAll(HotWorld(State(), DeviceAll(ctx.caches, ctx.w, batch), batch, values, ctx.w),
                                    ctx.w, eos, batch, BlankColumn()).0.pool.caches, ctx.w)
    {
      hide InStep, FreedEos, HostedAll, FreeEos, HostAll, UpdateAll, DeviceAll, RowShows, Split, Ordered;
      var a := HotWorld(State(), UpdateAll(ctx.caches, ctx.w, batch), batch, values, ctx.w);
      var b := HotWorld(State(), DeviceAll(ctx.caches, ctx.w, batch), batch, values, ctx.w);
      FreedEosPool(a, batch, eos, BlankColumn());
      HostedAllPool(b, ctx.w, eos, batch, BlankColumn());
      if InStep(ctx.caches, ctx.w) { StepKeepsInStep(Pool(), ctx.w, eos, batch); }
    }
  }

  /** The same step on two helpers, one archiving at once and one deferring: they report the same
      proofs when the first reads the host mirror or lists no ended sequence before a due one, flip
      pages alike, stay related, and what the lent rows hold stays the same. */
  method SameStep<D(!new)>(a: Helper<D>, b: Helper<D>, batch: Batch, values: seq<Entry<D>>)
    returns (dueA: seq<(int, nat)>, dueB: seq<(int, nat)>, flipA: bool, flipB: bool)
    requires a.Valid() && b.Valid() && {a, a.ctx, a.rows, a.rings} !! {b, b.ctx, b.rows, b.rings} && a.ctx != b.ctx
    requires a.ctx.w == b.ctx.w && a.ctx.page == b.ctx.page && a.eos == b.eos && a.ctx.prevMaxLen == b.ctx.prevMaxLen
    requires Related(a.Pool(), b.Pool()) && Agree(a.State(), b.State()) && DistinctIds(Ids(batch)) && |values| == |batch|
    requires forall i :: 0 <= i < |batch| ==> batch[i].0 in a.rows.rowOf
    modifies a`params, a.ctx, a.rows, a.rings, b`params, b.ctx, b.rows, b.rings
    ensures a.Valid() && b.Valid() && Related(a.Pool(), b.Pool()) && flipA == flipB && a.ctx.prevMaxLen == b.ctx.prevMaxLen
    ensures Agree(a.State(), b.State())
    ensures dueA == dueB <==> a.rings.hostOk || NoGapBeforeDue(Ids(batch), a.rows.rowOf, a.rings.steps, a.ctx.w)
  {
    hide RowShows, Split, Ordered, UpdateAll, DeviceAll, HostAll, FreeEos, LongestCounted, LongestUpdated, Due, Paired,
         LentRows, NoGapBeforeDue;
    hide FreedEos, HostedAll, HotWorld, AfterStep, Ready, Agree, InStep;
    ghost var a0, b0 := a.State(), b.State();
    DecodeStepAgrees(a.Pool(), b.Pool(), a.ctx.w, a.eos, batch);
    SameLongest(a.ctx.caches, b.ctx.caches, a.ctx.w, batch);
    flipA, dueA := a.DecodeStep(batch, values);
    flipB, dueB := b.DecodeStepDeferred(batch, values);
    StepPools(a0, b0, a.ctx.w, a.eos, batch, values, a.BlankColumn(), b.BlankColumn());
    DeviceAgrees(Ids(batch), a.rows.rowOf, a.rings.steps, a.ctx.w);
    StepAgrees(a0, a.State(), b0, b.State(), batch, values, a.ctx.w, a.eos, a.BlankColumn(), b.BlankColumn());
  }

  /** What the two kinds of step make of the pools. */
  lemma StepPools<D>(a: World<D>, b: World<D>, w: nat, eos: int, batch: Batch, values: seq<Entry<D>>,
                     blankA: seq<Entry<D>>, blankB: seq<Entry<D>>)
    requires w > 0
    ensures FreedEos(HotWorld(a, UpdateAll(a.pool.caches, w, batch), batch, values, w), batch, eos, blankA).pool
            == FreeEos(Hot(a.pool, UpdateAll(a.pool.caches, w, batch), batch), batch, eos)
    ensures var t := HostedAll(HotWorld(b, DeviceAll(b.pool.caches, w, batch), batch, values, w), w, eos, batch, blankB);
            (t.0.pool, t.1) == HostAll(Hot(b.pool, DeviceAll(b.pool.caches, w, batch), batch), w, eos, batch)
  {
    FreedEosPool(HotWorld(a, UpdateAll(a.pool.caches, w, batch), batch, values, w), batch, eos, blankA);
    HostedAllPool(HotWorld(b, DeviceAll(b.pool.caches, w, batch), batch, values, w), w, eos, batch, blankB);
  }

  /** A sequence decoded alone from an empty row: a proof is reported for every full window, and the
      windows then on record, one after the other, are the entries of its steps in order. */
  method MineAlone<D(!new)>(h: Helper<D>, sid: int, toks: seq<int>, values: seq<Entry<D>>) returns (windows: seq<seq<Entry<D>>>)
    requires h.Valid() && sid in h.rows.rowOf && h.rows.rowOf[sid] < |h.rings.logs| && h.rings.logs[h.rows.rowOf[sid]] == []
    requires |values| == |toks| && forall i :: 0 <= i < |toks| ==> toks[i] != h.eos
    modifies h`params, h.ctx, h.rows, h.rings
    ensures h.Valid() && |windows| == |toks| / h.ctx.w && Flat(windows) == values[..Covered(|toks|, h.ctx.w)]
    ensures sid in h.rows.rowOf && h.rows.rowOf[sid] < |h.rings.logs| && h.rings.logs[h.rows.rowOf[sid]] == values
  {
    hide RowShows, Split, Ordered, Due, Paired, UpdateAll, LongestUpdated, FreedEos, HotWorld, InStep, LastW, Covered;
    hide AfterStep, Ready, LentRows, DueWindows, Flat, Blanks;
    var row := h.rows.rowOf[sid];
    windows := [];
    NoneDueYet(h.ctx.w, h.rings.Blank());
    for i := 0 to |toks|
      invariant h.Valid() && sid in h.rows.rowOf && h.rows.rowOf[sid] == row < h.rings.maxRows
      invariant h.rings.logs[row] == values[..i] && windows == DueWindows(values[..i], h.ctx.w, h.rings.Blank())
    {
      var batch := [(sid, toks[i])];
      AloneIds(sid, toks[i]);
      ghost var before := h.State();
      var flip, due := h.DecodeStep(batch, [values[i]]);
      AloneStep(before, h.State(), sid, toks[i], values[i], h.ctx.w, h.eos, h.BlankColumn());
      RowOfLog(h.rings, row);
      DueAlone(sid, h.rows.rowOf, h.rings.steps, h.ctx.w);
      assert values[..i + 1] == values[..i] + [values[i]];
      OneMore(values[..i], values[i], h.ctx.w, h.rings.Blank());
      if due != [] {
        var window := h.rings.GetWindow(row);
        windows := windows + [window];
      }
    }
    assert values[..|toks|] == values;
    DueWindowsTile(values, h.ctx.w, h.rings.Blank());
  }

  lemma AloneIds(sid: int, tok: int)
    ensures Ids([(sid, tok)]) == [sid] && DistinctIds([sid])
  {
  }

  lemma RowOfLog<D(!new)>(b: RingBuffers<D>, row: nat)
    requires b.Valid() && row < b.maxRows && b.clean[row]
    ensures b.steps[row] == |b.logs[row]|
  {
  }

  lemma AloneStep<D>(s: World<D>, t: World<D>, sid: int, tok: int, e: Entry<D>, w: nat, eos: int, blank: seq<Entry<D>>)
    requires Ready(s, [(sid, tok)], [e], w) && AfterStep(s, t, [(sid, tok)], [e], w, eos, blank) && tok != eos
             && sid in s.pool.rowOf
    ensures sid in t.pool.rowOf && t.pool.rowOf[sid] == s.pool.rowOf[sid] < |s.mem.logs| && |t.mem.logs| == |s.mem.logs|
    ensures t.mem.logs[s.pool.rowOf[sid]] == s.mem.logs[s.pool.rowOf[sid]] + [e]
  {
    hide LentRows, Split, Blank;
    var batch := [(sid, tok)];
    assert batch[0].0 == sid && (sid, eos) !in batch;
  }
}
