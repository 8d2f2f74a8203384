/** The state of the helper as values, and what each operation does to it. */
module SamplerState {
  import opened Circular
  import opened ContextRing
  import opened Rows
  import opened ProofRing
  import opened StepEnd
  import opened StepFinish

  /** Listed sequences that still need a row. */
  function Lacking(sids: seq<int>, rowOf: map<int, nat>): set<int> { set a | a in sids && a !in rowOf }

  lemma {:induction false} Fewer<T>(a: set<T>, b: set<T>)
    requires a <= b
    ensures |a| <= |b| && (|a| == |b| ==> a == b)
  {
    assert b == a + (b - a);
    assert |b| == |a| + |b - a|;
    if |b - a| == 0 { assert b - a == {}; }
  }

  /** Once the first has a row, one fewer is lacking. */
  lemma LackingNext(sids: seq<int>, i: nat, rowOf: map<int, nat>, more: map<int, nat>)
    requires i < |sids| && rowOf.Keys <= more.Keys && sids[i] in more
    ensures |Lacking(sids[i + 1..], more)| <= |Lacking(sids[i..], rowOf)| - if sids[i] in rowOf then 0 else 1
  {
    var before, after := Lacking(sids[i..], rowOf), Lacking(sids[i + 1..], more);
    LackingFirst(sids, i, rowOf);
    assert sids[i..] == [sids[i]] + sids[i + 1..];
    if sids[i] in rowOf {
      Fewer(after, before);
    } else {
      Fewer(after, before - {sids[i]});
    }
  }

  lemma LackingFirst(sids: seq<int>, i: nat, rowOf: map<int, nat>)
    requires i < |sids|
    ensures sids[i] !in rowOf ==> sids[i] in Lacking(sids[i..], rowOf) && |Lacking(sids[i..], rowOf)| > 0
  {
    if sids[i] !in rowOf {
      assert sids[i..][0] == sids[i];
      assert sids[i] in Lacking(sids[i..], rowOf);
      Fewer({sids[i]}, Lacking(sids[i..], rowOf));
    }
  }

  // ---- the state as values ----

  /** What the rows hold: their entries, their owners' logs, work parameters and lengths. */
  datatype Memory<+D> =
    Memory(columns: seq<seq<Entry<D>>>, logs: seq<seq<Entry<D>>>, params: seq<Option<Snapshot<D>>>, lengths: seq<Lengths>)

  datatype World<+D> = World(pool: Pool, mem: Memory<D>)

  function Wipe<D>(m: Memory<D>, row: nat, column: seq<Entry<D>>, params: Option<Snapshot<D>>): Memory<D> {
    if row < |m.columns| == |m.logs| == |m.params| == |m.lengths| then
      Memory(m.columns[row := column], m.logs[row := []], m.params[row := params], m.lengths[row := LengthsFor(params)])
    else m
  }

  /** The sequence is gone and its row wiped. */
  function Freed<D>(s: World<D>, sid: int, blank: seq<Entry<D>>): World<D> {
    World(FreeOf(s.pool, sid), if sid in s.pool.rowOf then Wipe(s.mem, s.pool.rowOf[sid], blank, None) else s.mem)
  }

  /** The row freed longest ago goes to `sid`, wiped. */
  function Given<D>(s: World<D>, sid: int, prompt: seq<int>, w: nat, blank: seq<Entry<D>>, params: Option<Snapshot<D>>): World<D>
    requires w > 0 && s.pool.free != []
  {
    var p, r := s.pool, s.pool.free[0];
    World(StepEnd.Pool(p.caches[sid := InitCache(prompt, w)], p.rowOf[sid := r], p.free[1..],
                       if r < |p.steps| then p.steps[r := 0] else p.steps),
          Wipe(s.mem, r, blank, params))
  }

  ghost predicate Whole<D>(s: World<D>) {
    Sane(s.pool) && |s.mem.columns| == |s.mem.logs| == |s.mem.params| == |s.mem.lengths| == |s.pool.steps|
  }

  /** A row and its owner's log. */
  ghost function At<D>(s: World<D>, r: nat): (RowState<D>, seq<Entry<D>>)
    requires Whole(s) && r < |s.pool.steps|
  {
    (RowState(s.mem.columns[r], s.pool.steps[r], s.mem.params[r], s.mem.lengths[r]), s.mem.logs[r])
  }

  /** A row given back, or lent with work parameters of its own. */
  function Blank<D>(column: seq<Entry<D>>, params: Option<Snapshot<D>>): (RowState<D>, seq<Entry<D>>) {
    (RowState(column, 0, params, LengthsFor(params)), [])
  }

  /** `sid` holds nothing of its row's last owner. */
  ghost predicate Fresh<D>(s: World<D>, sid: int, prompt: seq<int>, w: nat, blank: seq<Entry<D>>, params: Option<Snapshot<D>>)
    requires w > 0 && Whole(s)
  {
    sid in s.pool.rowOf && sid in s.pool.caches && s.pool.rowOf[sid] < |s.pool.steps|
    && s.pool.caches[sid] == InitCache(prompt, w) && At(s, s.pool.rowOf[sid]) == Blank(blank, params)
  }

  /** `sid` has the same row, context and entries in both. */
  ghost predicate Same<D>(s: World<D>, t: World<D>, sid: int)
    requires Whole(s) && Whole(t)
  {
    sid in s.pool.rowOf && sid in t.pool.rowOf && sid in s.pool.caches && sid in t.pool.caches
    && s.pool.caches[sid] == t.pool.caches[sid]
    && var r := s.pool.rowOf[sid];
       t.pool.rowOf[sid] == r < |s.pool.steps| && r < |t.pool.steps| && At(t, r) == At(s, r)
  }

  lemma FreedKeepsOthers<D>(s: World<D>, sid: int, blank: seq<Entry<D>>)
    requires Whole(s)
    ensures var t := Freed(s, sid, blank);
            Whole(t) && sid !in t.pool.rowOf && forall a :: a in s.pool.rowOf && a != sid ==> Same(s, t, a)
  {
    FreeSane(s.pool, sid);
  }

  lemma GivenIsFresh<D>(s: World<D>, sid: int, prompt: seq<int>, w: nat, blank: seq<Entry<D>>, params: Option<Snapshot<D>>)
    requires w > 0 && Whole(s) && s.pool.free != [] && sid !in s.pool.rowOf
    ensures var t := Given(s, sid, prompt, w, blank, params);
            Whole(t) && Fresh(t, sid, prompt, w, blank, params) && forall a :: a in s.pool.rowOf ==> Same(s, t, a)
  {
    Lend(s.pool.rowOf, s.pool.free, |s.pool.steps|, sid);
    assert s.pool.free[0] in s.pool.free;
  }

  /** With every row lent, `sid` takes that of the longest-running sequence. */
  ghost predicate Evicts<D>(s: World<D>, order: map<int, nat>, t: World<D>, victim: int, sid: int, prompt: seq<int>, w: nat,
                            blank: seq<Entry<D>>, params: Option<Snapshot<D>>)
    requires w > 0
  {
    Oldest(s.pool.rowOf, order, s.pool.steps, victim, s.pool.rowOf.Keys)
    && victim in s.pool.rowOf && t == Given(Freed(s, victim, blank), sid, prompt, w, blank, params)
  }

  /** No row yet, and there are rows to have. */
  predicate Takes<D>(s: World<D>, sid: int) { sid !in s.pool.rowOf && (s.pool.free != [] || s.pool.rowOf != map[]) }

  function PromptOf(prompts: map<int, seq<int>>, sid: int): seq<int> { if sid in prompts then prompts[sid] else [] }

  /** What `EnsureRow` leads to. */
  ghost predicate Ensured<D>(s: World<D>, order: map<int, nat>, t: World<D>, sid: int, prompt: seq<int>, w: nat,
                             blank: seq<Entry<D>>, params: Option<Snapshot<D>>)
    requires w > 0
  {
    if sid in s.pool.rowOf then t == s
    else if s.pool.free != [] then t == Given(s, sid, prompt, w, blank, params)
    else if s.pool.rowOf == map[] then t == s
    else exists victim :: Evicts(s, order, t, victim, sid, prompt, w, blank, params)
  }

  lemma VictimGone<D>(s: World<D>, order: map<int, nat>, victim: int, blank: seq<Entry<D>>)
    requires Oldest(s.pool.rowOf, order, s.pool.steps, victim, s.pool.rowOf.Keys)
    ensures victim in s.pool.rowOf && Freed(s, victim, blank).pool.rowOf == s.pool.rowOf - {victim}
    ensures Freed(s, victim, blank).pool.free != []
  {
  }

  lemma LentElsewhere(rowOf: map<int, nat>, free: seq<nat>, max: nat)
    requires Split(rowOf, free, max)
    ensures forall a :: a in rowOf ==> rowOf[a] < max && (free != [] ==> rowOf[a] != free[0])
    ensures free != [] ==> free[0] < max
  {
  }

  /** `sid` starts over in its row, whatever its work parameters. */
  ghost predicate Restarted<D>(s: World<D>, sid: int, prompt: seq<int>, w: nat, blank: seq<Entry<D>>)
    requires w > 0 && Whole(s)
  {
    sid in s.pool.rowOf && s.pool.rowOf[sid] < |s.mem.params| && Fresh(s, sid, prompt, w, blank, s.mem.params[s.pool.rowOf[sid]])
  }

  /** Every live sequence kept all it had or started over with an empty row. */
  ghost predicate OwnOnly<D>(s: World<D>, t: World<D>, prompts: map<int, seq<int>>, w: nat, blank: seq<Entry<D>>)
    requires w > 0 && Whole(s) && Whole(t)
  {
    forall sid :: sid in t.pool.rowOf ==> Same(s, t, sid) || (sid in prompts && Restarted(t, sid, prompts[sid], w, blank))
  }

  lemma OwnAll<D>(s: World<D>, prompts: map<int, seq<int>>, w: nat, blank: seq<Entry<D>>)
    requires w > 0 && Whole(s)
    ensures OwnOnly(s, s, prompts, w, blank)
  {
  }

  lemma SameKeeps<D>(s0: World<D>, s: World<D>, t: World<D>, sid: int, prompts: map<int, seq<int>>, w: nat, blank: seq<Entry<D>>)
    requires w > 0 && Whole(s0) && Whole(s) && Whole(t) && OwnOnly(s0, s, prompts, w, blank) && Same(s, t, sid)
    ensures Same(s0, t, sid) || (sid in prompts && Restarted(t, sid, prompts[sid], w, blank))
  {
  }

  lemma OwnGiven<D>(s0: World<D>, s: World<D>, sid: int, prompts: map<int, seq<int>>, w: nat, blank: seq<Entry<D>>,
                    params: Option<Snapshot<D>>)
    requires w > 0 && Whole(s0) && Whole(s) && OwnOnly(s0, s, prompts, w, blank)
    requires sid in prompts && sid !in s.pool.rowOf && s.pool.free != []
    ensures var t := Given(s, sid, prompts[sid], w, blank, params);
            Whole(t) && OwnOnly(s0, t, prompts, w, blank)
  {
    hide Given, Same, Fresh;
    var t := Given(s, sid, prompts[sid], w, blank, params);
    GivenIsFresh(s, sid, prompts[sid], w, blank, params);
    GivenRows(s, sid, prompts[sid], w, blank, params);
    forall a | a in t.pool.rowOf
      ensures Same(s0, t, a) || (a in prompts && Restarted(t, a, prompts[a], w, blank))
    {
      if a != sid { SameKeeps(s0, s, t, a, prompts, w, blank); } else { FreshParams(t, sid, prompts[sid], w, blank, params); }
    }
  }

  lemma GivenRows<D>(s: World<D>, sid: int, prompt: seq<int>, w: nat, blank: seq<Entry<D>>, params: Option<Snapshot<D>>)
    requires w > 0 && s.pool.free != []
    ensures Given(s, sid, prompt, w, blank, params).pool.rowOf == s.pool.rowOf[sid := s.pool.free[0]]
    ensures |Given(s, sid, prompt, w, blank, params).pool.free| == |s.pool.free| - 1
  {
  }

  lemma FreshParams<D>(t: World<D>, sid: int, prompt: seq<int>, w: nat, blank: seq<Entry<D>>, params: Option<Snapshot<D>>)
    requires w > 0 && Whole(t) && Fresh(t, sid, prompt, w, blank, params)
    ensures Restarted(t, sid, prompt, w, blank)
  {
  }

  lemma OwnFreed<D>(s0: World<D>, s: World<D>, victim: int, prompts: map<int, seq<int>>, w: nat, blank: seq<Entry<D>>)
    requires w > 0 && Whole(s0) && Whole(s) && OwnOnly(s0, s, prompts, w, blank)
    ensures Whole(Freed(s, victim, blank)) && OwnOnly(s0, Freed(s, victim, blank), prompts, w, blank)
  {
    hide Same, Fresh, Restarted;
    var t := Freed(s, victim, blank);
    FreedKeepsOthers(s, victim, blank);
    forall a | a in t.pool.rowOf
      ensures Same(s0, t, a) || (a in prompts && Restarted(t, a, prompts[a], w, blank))
    {
      assert a in s.pool.rowOf;
      SameKeeps(s0, s, t, a, prompts, w, blank);
    }
  }

  lemma OwnEnsured<D>(s0: World<D>, s: World<D>, order: map<int, nat>, t: World<D>, sid: int, prompts: map<int, seq<int>>, w: nat,
                      blank: seq<Entry<D>>, params: Option<Snapshot<D>>)
    requires w > 0 && Whole(s0) && Whole(s) && OwnOnly(s0, s, prompts, w, blank)
    requires Ensured(s, order, t, sid, PromptOf(prompts, sid), w, blank, params) && (sid in prompts || !Takes(s, sid))
    ensures Whole(t) && OwnOnly(s0, t, prompts, w, blank)
    ensures s.pool.free != [] ==> sid in t.pool.rowOf
  {
    hide OwnOnly, Given, Freed, Oldest, Whole;
    if !Takes(s, sid) {
    } else if s.pool.free != [] {
      OwnGiven(s0, s, sid, prompts, w, blank, params);
      GivenRows(s, sid, prompts[sid], w, blank, params);
    } else {
      var victim :| Evicts(s, order, t, victim, sid, prompts[sid], w, blank, params);
      OwnFreed(s0, s, victim, prompts, w, blank);
      VictimGone(s, order, victim, blank);
      OwnGiven(s0, Freed(s, victim, blank), sid, prompts, w, blank, params);
    }
  }

  lemma RowsEnsured<D>(s: World<D>, order: map<int, nat>, t: World<D>, sid: int, prompt: seq<int>, w: nat,
                       blank: seq<Entry<D>>, params: Option<Snapshot<D>>)
    requires w > 0 && Whole(s) && Ensured(s, order, t, sid, prompt, w, blank, params)
    requires sid in s.pool.rowOf || s.pool.free != []
    ensures sid in t.pool.rowOf && forall a :: a in s.pool.rowOf ==> a in t.pool.rowOf && t.pool.rowOf[a] == s.pool.rowOf[a]
    ensures s.pool.rowOf.Keys <= t.pool.rowOf.Keys && |t.pool.free| == |s.pool.free| - if sid in s.pool.rowOf then 0 else 1
  {
  }

  /** The rows of sequences that all have one, in list order. */
  lemma {:induction false} LentInOrder(sids: seq<int>, rowOf: map<int, nat>, free: seq<nat>, max: nat)
    requires Split(rowOf, free, max) && DistinctIds(sids) && forall i :: 0 <= i < |sids| ==> sids[i] in rowOf
    ensures |LentRows(sids, rowOf)| == |sids| && Distinct(LentRows(sids, rowOf))
    ensures forall i :: 0 <= i < |sids| ==> LentRows(sids, rowOf)[i] == rowOf[sids[i]] < max
  {
    if sids != [] { LentInOrder(sids[..|sids| - 1], rowOf, free, max); }
  }

  // ---- rows for a batch ----

  /** After the first `i` of a batch asked for rows: live sequences hold their own, and if there were
      rows enough there still are, those asked have theirs and nobody lost one. */
  ghost predicate Ensuring<D>(s0: World<D>, s: World<D>, sids: seq<int>, i: nat, prompts: map<int, seq<int>>, w: nat,
                              blank: seq<Entry<D>>)
    requires w > 0 && i <= |sids|
  {
    Whole(s0) && Whole(s) && OwnOnly(s0, s, prompts, w, blank)
    && (|Lacking(sids, s0.pool.rowOf)| <= |s0.pool.free| ==>
          |Lacking(sids[i..], s.pool.rowOf)| <= |s.pool.free|
          && (forall j :: 0 <= j < i ==> sids[j] in s.pool.rowOf)
          && forall a :: a in s0.pool.rowOf ==> a in s.pool.rowOf && s.pool.rowOf[a] == s0.pool.rowOf[a])
  }

  lemma EnsuringStarts<D>(s: World<D>, sids: seq<int>, prompts: map<int, seq<int>>, w: nat, blank: seq<Entry<D>>)
    requires w > 0 && Whole(s)
    ensures Ensuring(s, s, sids, 0, prompts, w, blank)
  {
    assert sids[0..] == sids;
    OwnAll(s, prompts, w, blank);
  }

  lemma EnsuringNext<D>(s0: World<D>, s: World<D>, order: map<int, nat>, t: World<D>, sids: seq<int>, i: nat,
                        prompts: map<int, seq<int>>, w: nat, blank: seq<Entry<D>>, params: Option<Snapshot<D>>)
    requires w > 0 && i < |sids| && Ensuring(s0, s, sids, i, prompts, w, blank)
    requires Ensured(s, order, t, sids[i], PromptOf(prompts, sids[i]), w, blank, params)
    requires sids[i] in prompts || !Takes(s, sids[i])
    ensures Ensuring(s0, t, sids, i + 1, prompts, w, blank)
  {
    hide OwnOnly, Ensured, Takes, Lacking, Whole;
    OwnEnsured(s0, s, order, t, sids[i], prompts, w, blank, params);
    LackingFirst(sids, i, s.pool.rowOf);
    if sids[i] in s.pool.rowOf || s.pool.free != [] {
      RowsEnsured(s, order, t, sids[i], PromptOf(prompts, sids[i]), w, blank, params);
      LackingNext(sids, i, s.pool.rowOf, t.pool.rowOf);
    }
  }

  lemma EnsuringEnds<D>(s0: World<D>, s: World<D>, sids: seq<int>, prompts: map<int, seq<int>>, w: nat, blank: seq<Entry<D>>)
    requires w > 0 && Ensuring(s0, s, sids, |sids|, prompts, w, blank)
    ensures Whole(s0) && Whole(s) && OwnOnly(s0, s, prompts, w, blank)
    ensures |Lacking(sids, s0.pool.rowOf)| <= |s0.pool.free| ==>
              (forall j :: 0 <= j < |sids| ==> sids[j] in s.pool.rowOf)
              && forall a :: a in s0.pool.rowOf ==> a in s.pool.rowOf && s.pool.rowOf[a] == s0.pool.rowOf[a]
  {
  }

  /** With rows enough and prompts for all that had none, nobody is turned away. */
  lemma EnsuringServes<D>(s0: World<D>, s: World<D>, sids: seq<int>, i: nat, prompts: map<int, seq<int>>, w: nat,
                          blank: seq<Entry<D>>)
    requires w > 0 && i < |sids| && Ensuring(s0, s, sids, i, prompts, w, blank)
    requires |Lacking(sids, s0.pool.rowOf)| <= |s0.pool.free| && Lacking(sids, s0.pool.rowOf) <= prompts.Keys
    ensures sids[i] in prompts || !Takes(s, sids[i])
  {
    hide OwnOnly, Whole;
    var a := sids[i];
    assert a in s0.pool.rowOf ==> a in s.pool.rowOf;
    if a !in s.pool.rowOf { assert a in sids && a in Lacking(sids, s0.pool.rowOf); }
  }

  // ---- making room ----

  function FreedEach<D>(s: World<D>, gone: seq<int>, blank: seq<Entry<D>>): World<D> {
    if gone == [] then s else Freed(FreedEach(s, gone[..|gone| - 1], blank), gone[|gone| - 1], blank)
  }

  lemma FreedEachNext<D>(s: World<D>, gone: seq<int>, sid: int, blank: seq<Entry<D>>)
    ensures FreedEach(s, [], blank) == s && FreedEach(s, gone + [sid], blank) == Freed(FreedEach(s, gone, blank), sid, blank)
  {
    assert (gone + [sid])[..|gone|] == gone;
  }

  lemma {:induction false} FreedEachRows<D>(s: World<D>, gone: seq<int>, blank: seq<Entry<D>>)
    requires Whole(s) && DistinctIds(gone) && forall i :: 0 <= i < |gone| ==> gone[i] in s.pool.rowOf
    ensures var t := FreedEach(s, gone, blank);
            Whole(t) && |t.pool.free| == |s.pool.free| + |gone|
            && (forall a :: a in t.pool.rowOf <==> a in s.pool.rowOf && a !in gone)
            && forall a :: a in t.pool.rowOf ==> Same(s, t, a)
  {
    hide Freed, Same;
    if gone == [] {
      AllSame(s);
    } else {
      var k := |gone| - 1;
      var front, sid := gone[..k], gone[k];
      var q := FreedEach(s, front, blank);
      FreedEachRows(s, front, blank);
      assert gone == front + [sid];
      FreedKeepsOthers(q, sid, blank);
      FreedFree(q, sid, blank);
      var t := Freed(q, sid, blank);
      forall a | a in t.pool.rowOf
        ensures Same(s, t, a)
      {
        SameTrans(s, q, t, a);
      }
    }
  }

  function Least(a: int, b: nat): nat { if a <= 0 then 0 else if a < b then a else b }

  /** After freeing sequences outside the batch. */
  lemma RoomMade<D>(s: World<D>, sids: seq<int>, gone: seq<int>, blank: seq<Entry<D>>)
    requires Whole(s) && DistinctIds(gone) && forall i :: 0 <= i < |gone| ==> gone[i] in s.pool.rowOf && gone[i] !in sids
    ensures var t := FreedEach(s, gone, blank);
            Whole(t) && |t.pool.free| == |s.pool.free| + |gone| && Lacking(sids, t.pool.rowOf) == Lacking(sids, s.pool.rowOf)
            && (forall a :: a in t.pool.rowOf <==> a in s.pool.rowOf && a !in gone)
            && forall a :: a in t.pool.rowOf ==> Same(s, t, a)
  {
    hide FreedEach, Same, Whole;
    FreedEachRows(s, gone, blank);
    var t := FreedEach(s, gone, blank);
    forall a
      ensures a in Lacking(sids, t.pool.rowOf) <==> a in Lacking(sids, s.pool.rowOf)
    {
      NotGone(gone, sids, a);
    }
  }

  lemma NotGone(gone: seq<int>, sids: seq<int>, a: int)
    requires forall i :: 0 <= i < |gone| ==> gone[i] !in sids
    ensures a in sids ==> a !in gone
  {
  }

  /** Listed sequences kept all or started over, the other live ones lost nothing unless they made room. */
  lemma Settled<D>(s: World<D>, mid: World<D>, t: World<D>, sids: seq<int>, gone: seq<int>, texts: int -> seq<int>,
                   prompts: map<int, seq<int>>, w: nat, blank: seq<Entry<D>>)
    requires w > 0 && Whole(s) && Whole(mid) && Whole(t) && OwnOnly(mid, t, prompts, w, blank)
    requires prompts == map a | a in Lacking(sids, s.pool.rowOf) :: texts(a)
    requires forall a :: a in mid.pool.rowOf <==> a in s.pool.rowOf && a !in gone
    requires forall a :: a in mid.pool.rowOf ==> Same(s, mid, a) && a in t.pool.rowOf
    requires forall i :: 0 <= i < |sids| ==> sids[i] in t.pool.rowOf && sids[i] !in gone
    ensures forall a :: a in s.pool.rowOf && a !in gone ==> Same(s, t, a)
    ensures forall a :: a in sids && a !in s.pool.rowOf ==> Restarted(t, a, texts(a), w, blank)
    ensures forall a :: a in t.pool.rowOf <==> a in sids || (a in s.pool.rowOf && a !in gone)
  {
    hide Restarted, Whole;
    forall a | a in s.pool.rowOf && a !in gone
      ensures Same(s, t, a)
    {
      assert Same(mid, t, a);
      SameTrans(s, mid, t, a);
    }
    hide Same;
    SameLive(mid, t);
  }

  lemma SameLive<D>(s: World<D>, t: World<D>)
    requires Whole(s) && Whole(t)
    ensures forall a :: Same(s, t, a) ==> a in s.pool.rowOf && a in t.pool.rowOf
  {
  }

  lemma FreedFree<D>(s: World<D>, sid: int, blank: seq<Entry<D>>)
    requires sid in s.pool.rowOf
    ensures |Freed(s, sid, blank).pool.free| == |s.pool.free| + 1
    ensures Freed(s, sid, blank).pool.rowOf == s.pool.rowOf - {sid}
  {
  }

  lemma AllSame<D>(s: World<D>)
    requires Whole(s)
    ensures forall a :: a in s.pool.rowOf ==> Same(s, s, a)
  {
  }

  lemma SameTrans<D>(s: World<D>, t: World<D>, u: World<D>, sid: int)
    requires Whole(s) && Whole(t) && Whole(u) && Same(s, t, sid) && Same(t, u, sid)
    ensures Same(s, u, sid)
  {
  }

  /** Freeing unlisted sequences makes room exactly when there are rows for all distinct listed ids. */
  lemma RoomForAll<D>(s: World<D>, sids: seq<int>)
    requires Whole(s)
    ensures var listed := set a | a in sids;
            |listed| <= |s.pool.steps|
            <==> |Lacking(sids, s.pool.rowOf)| <= |s.pool.free| + |s.pool.rowOf.Keys - listed|
  {
    var live := s.pool.rowOf.Keys;
    var listed := set a | a in sids;
    SplitCount(s.pool.rowOf, s.pool.free, |s.pool.steps|);
    assert Lacking(sids, s.pool.rowOf) == listed - live;
    assert listed == (listed - live) + listed * live && live == (live - listed) + listed * live;
    assert |listed| == |listed - live| + |listed * live| && |live| == |live - listed| + |listed * live|;
  }

  /** Rows are lent one to a sequence. */
  lemma NotMoreThanRows<D>(s: World<D>, sids: seq<int>)
    requires Whole(s) && forall i :: 0 <= i < |sids| ==> sids[i] in s.pool.rowOf
    ensures |set a | a in sids| <= |s.pool.steps|
  {
    SplitCount(s.pool.rowOf, s.pool.free, |s.pool.steps|);
    Fewer((set a | a in sids), s.pool.rowOf.Keys);
  }

  // ---- whole steps ----

  /** Sequences that sampled the end token give up their rows, wiped. */
  function FreedEos<D>(s: World<D>, batch: Batch, eos: int, blank: seq<Entry<D>>): World<D> {
    if batch == [] then s
    else
      var k := |batch| - 1;
      var t := FreedEos(s, batch[..k], eos, blank);
      if batch[k].1 == eos then Freed(t, batch[k].0, blank) else t
  }

  /** The deferred work for all tokens a sequence committed. */
  function HostedToks<D>(s: World<D>, w: nat, eos: int, sid: int, toks: seq<int>, blank: seq<Entry<D>>)
    : (World<D>, seq<(int, nat)>)
    requires w > 0
  {
    if sid !in s.pool.caches then (s, [])
    else
      var t := s.(pool := s.pool.(caches := s.pool.caches[sid := ArchiveList(s.pool.caches[sid], toks)]));
      var count := s.pool.caches[sid].genCount;
      if toks != [] && toks[|toks| - 1] == eos then (Freed(t, sid, blank), [])
      else (t, if count > 0 && count % w == 0 && sid in t.pool.rowOf then [(sid, t.pool.rowOf[sid])] else [])
  }

  function HostedAll<D>(s: World<D>, w: nat, eos: int, batch: Batch, blank: seq<Entry<D>>): (World<D>, seq<(int, nat)>)
    requires w > 0
  {
    if batch == [] then (s, [])
    else
      var k := |batch| - 1;
      var before := HostedAll(s, w, eos, batch[..k], blank);
      var last := HostedToks(before.0, w, eos, batch[k].0, [batch[k].1], blank);
      (last.0, before.1 + last.1)
  }

  /** A step's entries go to the rows of the batch, whose counters advance. */
  ghost function HotWorld<D>(s: World<D>, caches: Caches, batch: Batch, values: seq<Entry<D>>, w: nat): World<D>
    requires w > 0
  {
    var rows := LentRows(Ids(batch), s.pool.rowOf);
    World(Hot(s.pool, caches, batch),
          if |rows| != |values| then s.mem
          else s.mem.(columns := Filed(s.mem.columns, s.pool.steps, w, rows, values), logs := Logged(s.mem.logs, rows, values)))
  }

  lemma {:induction false} FreedEosPool<D>(s: World<D>, batch: Batch, eos: int, blank: seq<Entry<D>>)
    ensures FreedEos(s, batch, eos, blank).pool == FreeEos(s.pool, batch, eos)
  {
    hide FreeOf, Wipe;
    if batch != [] { FreedEosPool(s, batch[..|batch| - 1], eos, blank); }
  }

  lemma HostedToksPool<D>(s: World<D>, w: nat, eos: int, sid: int, toks: seq<int>, blank: seq<Entry<D>>)
    requires w > 0
    ensures var t := HostedToks(s, w, eos, sid, toks, blank);
            (t.0.pool, t.1) == HostToks(s.pool, w, eos, sid, toks)
  {
  }

  lemma {:induction false} HostedAllPool<D>(s: World<D>, w: nat, eos: int, batch: Batch, blank: seq<Entry<D>>)
    requires w > 0
    ensures var t := HostedAll(s, w, eos, batch, blank);
            (t.0.pool, t.1) == HostAll(s.pool, w, eos, batch)
  {
    hide HostedToks, HostToks, HostStep;
    if batch != [] {
      var k := |batch| - 1;
      var before := HostedAll(s, w, eos, batch[..k], blank);
      HostedAllPool(s, w, eos, batch[..k], blank);
      HostedToksPool(before.0, w, eos, batch[k].0, [batch[k].1], blank);
      OneToken(before.0.pool, w, eos, batch[k]);
    }
  }

  // ---- what a step does to each row ----

  /** One more entry, at the slot of the counter. */
  function Advanced<D>(row: (RowState<D>, seq<Entry<D>>), e: Entry<D>, w: nat): (RowState<D>, seq<Entry<D>>) {
    if |row.0.column| == w > 0 then
      (row.0.(column := row.0.column[row.0.steps % w := e], steps := row.0.steps + 1), row.1 + [e])
    else row
  }

  ghost predicate Wide<D>(s: World<D>, w: nat) {
    forall r :: 0 <= r < |s.mem.columns| ==> |s.mem.columns[r]| == w
  }

  /** A step of a batch whose sequences all have rows. */
  ghost predicate Ready<D>(s: World<D>, batch: Batch, values: seq<Entry<D>>, w: nat) {
    w > 0 && Whole(s) && Wide(s, w) && DistinctIds(Ids(batch)) && |values| == |batch|
    && forall i :: 0 <= i < |batch| ==> batch[i].0 in s.pool.rowOf && s.pool.rowOf[batch[i].0] < |s.pool.steps|
  }

  /** Ended sequences leave their rows blank, the other listed ones have their entry on record, and
      no other row or sequence is touched. */
  ghost predicate AfterStep<D>(s: World<D>, t: World<D>, batch: Batch, values: seq<Entry<D>>, w: nat, eos: int,
                               blank: seq<Entry<D>>)
    requires Ready(s, batch, values, w)
  {
    Whole(t) && |t.pool.steps| == |s.pool.steps|
    && (forall sid :: sid in t.pool.rowOf <==> sid in s.pool.rowOf && (sid, eos) !in batch)
    && (forall sid :: sid in t.pool.rowOf ==> t.pool.rowOf[sid] == s.pool.rowOf[sid])
    && (forall i :: 0 <= i < |batch| ==>
          var r := s.pool.rowOf[batch[i].0];
          At(t, r) == if batch[i].1 == eos then Blank(blank, None) else Advanced(At(s, r), values[i], w))
    && (forall r: nat :: r < |s.pool.steps| && r !in LentRows(Ids(batch), s.pool.rowOf) ==> At(t, r) == At(s, r))
  }

  lemma HotRecords<D>(s: World<D>, caches: Caches, batch: Batch, values: seq<Entry<D>>, w: nat)
    requires Ready(s, batch, values, w) && caches.Keys == s.pool.caches.Keys
    ensures var h := HotWorld(s, caches, batch, values, w);
            Whole(h) && h.pool.rowOf == s.pool.rowOf && |h.pool.steps| == |s.pool.steps|
            && (forall i :: 0 <= i < |batch| ==>
                  var r := s.pool.rowOf[batch[i].0];
                  At(h, r) == Advanced(At(s, r), values[i], w))
            && forall r: nat :: r < |s.pool.steps| && r !in LentRows(Ids(batch), s.pool.rowOf) ==> At(h, r) == At(s, r)
  {
    hide Split, LentRows, Logged, Filed, At, Advanced, Wide;
    var rows, h := LentRows(Ids(batch), s.pool.rowOf), HotWorld(s, caches, batch, values, w);
    LentInOrder(Ids(batch), s.pool.rowOf, s.pool.free, |s.pool.steps|);
    SplitKept(s.pool, h.pool.steps);
    forall i | 0 <= i < |batch|
      ensures At(h, s.pool.rowOf[batch[i].0]) == Advanced(At(s, s.pool.rowOf[batch[i].0]), values[i], w)
    {
      assert Ids(batch)[i] == batch[i].0 && rows[i] in rows;
      RowRecords(s, h, rows, values, w, i);
    }
    forall r: nat | r < |s.pool.steps| && r !in rows
      ensures At(h, r) == At(s, r)
    {
      OtherRows(s, h, rows, values, w, r);
    }
  }

  ghost predicate Recorded<D>(s: World<D>, h: World<D>, rows: seq<nat>, values: seq<Entry<D>>, w: nat) {
    Whole(s) && Whole(h) && Wide(s, w) && w > 0 && |rows| == |values| && Distinct(rows)
    && (forall i :: 0 <= i < |rows| ==> rows[i] < |s.pool.steps|)
    && h.pool.steps == Stepped(s.pool.steps, rows)
    && h.mem == s.mem.(columns := Filed(s.mem.columns, s.pool.steps, w, rows, values), logs := Logged(s.mem.logs, rows, values))
  }

  lemma RowRecords<D>(s: World<D>, h: World<D>, rows: seq<nat>, values: seq<Entry<D>>, w: nat, i: nat)
    requires Recorded(s, h, rows, values, w) && i < |rows|
    ensures At(h, rows[i]) == Advanced(At(s, rows[i]), values[i], w)
  {
    hide Filed, Logged, Sane;
    LoggedAll(s.mem.logs, rows, values);
    FiledAll(s.mem.columns, s.pool.steps, w, rows, values);
    assert rows[i] in rows;
  }

  lemma OtherRows<D>(s: World<D>, h: World<D>, rows: seq<nat>, values: seq<Entry<D>>, w: nat, r: nat)
    requires Recorded(s, h, rows, values, w) && r < |s.pool.steps| && r !in rows
    ensures At(h, r) == At(s, r)
  {
    hide Filed, Logged, Sane;
    LoggedAll(s.mem.logs, rows, values);
    FiledAll(s.mem.columns, s.pool.steps, w, rows, values);
  }

  /** The row of one that ended. */
  ghost predicate GivenUp(rowOf: map<int, nat>, batch: Batch, eos: int, r: nat) {
    exists sid :: sid in rowOf && rowOf[sid] == r && (sid, eos) in batch
  }

  lemma FreedRow<D>(s: World<D>, sid: int, blank: seq<Entry<D>>)
    requires Whole(s)
    ensures var t := Freed(s, sid, blank);
            Whole(t) && t.pool.rowOf == s.pool.rowOf - {sid} && |t.pool.steps| == |s.pool.steps|
            && forall r: nat :: r < |s.pool.steps| ==>
                 At(t, r) == if sid in s.pool.rowOf && r == s.pool.rowOf[sid] then Blank(blank, None) else At(s, r)
  {
    FreeSane(s.pool, sid);
    hide Split;
  }

  lemma {:induction false} FreedRows<D>(s: World<D>, batch: Batch, eos: int, blank: seq<Entry<D>>)
    requires Whole(s)
    ensures var t := FreedEos(s, batch, eos, blank);
            Whole(t) && |t.pool.steps| == |s.pool.steps|
            && (forall sid :: sid in t.pool.rowOf <==> sid in s.pool.rowOf && (sid, eos) !in batch)
            && (forall sid :: sid in t.pool.rowOf ==> t.pool.rowOf[sid] == s.pool.rowOf[sid])
            && forall r: nat :: r < |s.pool.steps| ==>
                At(t, r) == if GivenUp(s.pool.rowOf, batch, eos, r) then Blank(blank, None) else At(s, r)
  {
    hide Whole, At, Blank, Freed;
    if batch != [] {
      var k := |batch| - 1;
      var front, sid := batch[..k], batch[k].0;
      assert batch == front + [batch[k]];
      var q := FreedEos(s, front, eos, blank);
      FreedRows(s, front, eos, blank);
      FreedRow(q, sid, blank);
      forall r: nat
        ensures GivenUp(s.pool.rowOf, batch, eos, r)
                <==> GivenUp(s.pool.rowOf, front, eos, r) || (batch[k].1 == eos && sid in s.pool.rowOf && s.pool.rowOf[sid] == r)
      {
        GivenUpLast(s.pool.rowOf, batch, eos, r);
      }
      forall r: nat | sid in s.pool.rowOf && sid !in q.pool.rowOf && s.pool.rowOf[sid] == r
        ensures GivenUp(s.pool.rowOf, front, eos, r)
      {
        assert (sid, eos) in front;
      }
    }
  }

  lemma GivenUpLast(rowOf: map<int, nat>, batch: Batch, eos: int, r: nat)
    requires batch != []
    ensures var k := |batch| - 1;
            GivenUp(rowOf, batch, eos, r)
            <==> GivenUp(rowOf, batch[..k], eos, r) || (batch[k].1 == eos && batch[k].0 in rowOf && rowOf[batch[k].0] == r)
  {
    var k := |batch| - 1;
    assert batch == batch[..k] + [batch[k]];
    var last := batch[k].0;
    if batch[k].1 == eos && last in rowOf && rowOf[last] == r {
      assert (last, eos) == batch[k];
      assert (last, eos) in batch;
    }
    if GivenUp(rowOf, batch, eos, r) {
      var sid :| sid in rowOf && rowOf[sid] == r && (sid, eos) in batch;
      assert (sid, eos) in batch[..k] || (sid, eos) == batch[k];
    }
    if GivenUp(rowOf, batch[..k], eos, r) {
      var sid :| sid in rowOf && rowOf[sid] == r && (sid, eos) in batch[..k];
      assert (sid, eos) in batch;
    }
  }

  /** A row of a step's batch is given up exactly when its own sequence ended. */
  lemma EndedRow<D>(s: World<D>, batch: Batch, eos: int)
    requires Sane(s.pool) && DistinctIds(Ids(batch)) && forall i :: 0 <= i < |batch| ==> batch[i].0 in s.pool.rowOf
    ensures forall i :: 0 <= i < |batch| ==> (GivenUp(s.pool.rowOf, batch, eos, s.pool.rowOf[batch[i].0]) <==> batch[i].1 == eos)
    ensures forall r: nat :: r !in LentRows(Ids(batch), s.pool.rowOf) ==> !GivenUp(s.pool.rowOf, batch, eos, r)
  {
    forall i | 0 <= i < |batch|
      ensures GivenUp(s.pool.rowOf, batch, eos, s.pool.rowOf[batch[i].0]) <==> batch[i].1 == eos
    {
      if batch[i].1 == eos { assert batch[i] == (batch[i].0, eos); }
      if GivenUp(s.pool.rowOf, batch, eos, s.pool.rowOf[batch[i].0]) {
        var sid :| sid in s.pool.rowOf && s.pool.rowOf[sid] == s.pool.rowOf[batch[i].0] && (sid, eos) in batch;
        var j :| 0 <= j < |batch| && batch[j] == (sid, eos);
        assert Ids(batch)[i] == Ids(batch)[j];
      }
    }
    forall r: nat | GivenUp(s.pool.rowOf, batch, eos, r)
      ensures r in LentRows(Ids(batch), s.pool.rowOf)
    {
      var sid :| sid in s.pool.rowOf && s.pool.rowOf[sid] == r && (sid, eos) in batch;
      var j :| 0 <= j < |batch| && batch[j] == (sid, eos);
      assert Ids(batch)[j] == sid;
      RowListed(Ids(batch), s.pool, sid);
    }
  }

  lemma StepRecords<D>(s: World<D>, caches: Caches, batch: Batch, values: seq<Entry<D>>, w: nat, eos: int, blank: seq<Entry<D>>)
    requires Ready(s, batch, values, w) && caches.Keys == s.pool.caches.Keys
    ensures AfterStep(s, FreedEos(HotWorld(s, caches, batch, values, w), batch, eos, blank), batch, values, w, eos, blank)
  {
    hide FreedEos, HotWorld, GivenUp, At, Advanced, Blank, LentRows, Split, Wide;
    var h := HotWorld(s, caches, batch, values, w);
    HotRecords(s, caches, batch, values, w);
    FreedRows(h, batch, eos, blank);
    EndedRow(s, batch, eos);
  }

  // ---- the deferred step on the rows ----

  /** The same rows, holding the same. */
  ghost predicate Alike<D>(a: World<D>, b: World<D>) {
    Whole(a) && Whole(b) && a.mem == b.mem && a.pool.rowOf == b.pool.rowOf && a.pool.free == b.pool.free
        && a.pool.steps == b.pool.steps
  }

  lemma {:induction false} HostedIsFreed<D>(a: World<D>, b: World<D>, w: nat, eos: int, batch: Batch, blank: seq<Entry<D>>)
    requires w > 0 && Alike(a, b)
    ensures Alike(FreedEos(a, batch, eos, blank), HostedAll(b, w, eos, batch, blank).0)
  {
    hide Alike, Freed, HostedToks;
    if batch != [] {
      var k := |batch| - 1;
      HostedIsFreed(a, b, w, eos, batch[..k], blank);
      HostedOne(FreedEos(a, batch[..k], eos, blank), HostedAll(b, w, eos, batch[..k], blank).0, w, eos, batch[k], blank);
    }
  }

  lemma HostedOne<D>(a: World<D>, b: World<D>, w: nat, eos: int, x: (int, int), blank: seq<Entry<D>>)
    requires w > 0 && Alike(a, b)
    ensures Alike(if x.1 == eos then Freed(a, x.0, blank) else a, HostedToks(b, w, eos, x.0, [x.1], blank).0)
  {
    var was := b.pool.caches;
    var caches := if x.0 in was then was[x.0 := ArchiveList(was[x.0], [x.1])] else was;
    var t := b.(pool := b.pool.(caches := caches));
    FreedRow(a, x.0, blank);
    FreedRow(t, x.0, blank);
    hide Split, Wipe;
  }

  lemma AlikeRows<D>(a: World<D>, b: World<D>, r: nat)
    requires Alike(a, b) && r < |a.pool.steps|
    ensures At(a, r) == At(b, r)
  {
  }

  lemma SteppedAlike<D>(s: World<D>, t: World<D>, u: World<D>, batch: Batch, values: seq<Entry<D>>, w: nat, eos: int,
                        blank: seq<Entry<D>>)
    requires Ready(s, batch, values, w) && AfterStep(s, t, batch, values, w, eos, blank) && Alike(t, u)
    ensures AfterStep(s, u, batch, values, w, eos, blank)
  {
    hide LentRows, Advanced, Blank, Wide, Sane;
    forall r: nat | r < |t.pool.steps|
      ensures At(t, r) == At(u, r)
    {
      AlikeRows(t, u, r);
    }
  }

  /** The deferred step does the same to every row. */
  lemma DeferredRecords<D>(s: World<D>, caches: Caches, batch: Batch, values: seq<Entry<D>>, w: nat, eos: int,
                           blank: seq<Entry<D>>)
    requires Ready(s, batch, values, w) && caches.Keys == s.pool.caches.Keys
    ensures AfterStep(s, HostedAll(HotWorld(s, caches, batch, values, w), w, eos, batch, blank).0, batch, values, w, eos, blank)
  {
    hide FreedEos, HotWorld, HostedAll, AfterStep, Whole;
    var h := HotWorld(s, caches, batch, values, w);
    StepRecords(s, caches, batch, values, w, eos, blank);
    HotRecords(s, caches, batch, values, w);
    HostedIsFreed(h, h, w, eos, batch, blank);
    SteppedAlike(s, FreedEos(h, batch, eos, blank), HostedAll(h, w, eos, batch, blank).0, batch, values, w, eos, blank);
  }

  /** The lent rows are the same and hold the same. */
  ghost predicate Agree<D>(a: World<D>, b: World<D>) {
    Whole(a) && Whole(b) && a.pool.rowOf == b.pool.rowOf && |a.pool.steps| == |b.pool.steps|
    && forall sid :: sid in a.pool.rowOf && a.pool.rowOf[sid] < |a.pool.steps| ==>
        At(a, a.pool.rowOf[sid]) == At(b, b.pool.rowOf[sid])
  }

  lemma StepAgrees<D>(a: World<D>, a': World<D>, b: World<D>, b': World<D>, batch: Batch, values: seq<Entry<D>>, w: nat, eos: int,
                      blankA: seq<Entry<D>>, blankB: seq<Entry<D>>)
    requires Agree(a, b) && Ready(a, batch, values, w) && Ready(b, batch, values, w)
    requires AfterStep(a, a', batch, values, w, eos, blankA) && AfterStep(b, b', batch, values, w, eos, blankB)
    ensures Agree(a', b')
  {
    hide At, Advanced, Blank, Wide, LentRows, Split;
    assert forall sid :: sid in a'.pool.rowOf <==> sid in b'.pool.rowOf;
    assert forall sid :: sid in a'.pool.rowOf ==>
             a'.pool.rowOf[sid] == a.pool.rowOf[sid] == b.pool.rowOf[sid] == b'.pool.rowOf[sid];
    assert a'.pool.rowOf == b'.pool.rowOf;
    forall sid | sid in a'.pool.rowOf && a'.pool.rowOf[sid] < |a'.pool.steps|
      ensures At(a', a'.pool.rowOf[sid]) == At(b', b'.pool.rowOf[sid])
    {
      RowListed(Ids(batch), a.pool, sid);
      if sid in Ids(batch) {
        var i :| 0 <= i < |batch| && Ids(batch)[i] == sid;
        assert (sid, batch[i].1) == batch[i];
      }
    }
  }
}
