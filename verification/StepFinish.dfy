/** A decode step that archives its tokens at once, beside one that defers them to the host. */
module StepFinish {
  import opened Circular
  import opened ContextRing
  import opened Rows
  import opened ProofRing
  import opened StepEnd

  function Ids(batch: Batch): (r: seq<int>)
    ensures |r| == |batch| && forall i :: 0 <= i < |batch| ==> r[i] == batch[i].0
  {
    seq(|batch|, i requires 0 <= i < |batch| => batch[i].0)
  }

  /** Rows of the batch; ids without one are skipped. */
  function Hot(p: Pool, caches: Caches, batch: Batch): Pool {
    Pool(caches, p.rowOf, p.free, Stepped(p.steps, LentRows(Ids(batch), p.rowOf)))
  }

  /** Sequences that sampled the end token give up their rows. */
  function FreeEos(p: Pool, batch: Batch, eos: int): Pool {
    if batch == [] then p
    else
      var k := |batch| - 1;
      var q := FreeEos(p, batch[..k], eos);
      if batch[k].1 == eos then FreeOf(q, batch[k].0) else q
  }

  /** The deferred work for one committed token: archive it, then end the sequence or test the
      boundary by its own counter. */
  function HostStep(p: Pool, w: nat, eos: int, x: (int, int)): (Pool, seq<(int, nat)>)
    requires w > 0
  {
    if x.0 !in p.caches then (p, [])
    else
      var q := p.(caches := ArchiveOne(p.caches, x.0, x.1));
      var count := p.caches[x.0].genCount;
      if x.1 == eos then (FreeOf(q, x.0), [])
      else (q, if count > 0 && count % w == 0 && x.0 in q.rowOf then [(x.0, q.rowOf[x.0])] else [])
  }

  function ArchiveList(c: Cache, toks: seq<int>): Cache {
    c.(archive := c.archive + toks, padMask := c.padMask + seq(|toks|, _ => false))
  }

  /** The deferred work for all tokens a sequence committed. */
  function HostToks(p: Pool, w: nat, eos: int, sid: int, toks: seq<int>): (Pool, seq<(int, nat)>)
    requires w > 0
  {
    if sid !in p.caches then (p, [])
    else
      var q := p.(caches := p.caches[sid := ArchiveList(p.caches[sid], toks)]);
      var count := p.caches[sid].genCount;
      if toks != [] && toks[|toks| - 1] == eos then (FreeOf(q, sid), [])
      else (q, if count > 0 && count % w == 0 && sid in q.rowOf then [(sid, q.rowOf[sid])] else [])
  }

  lemma OneToken(p: Pool, w: nat, eos: int, x: (int, int))
    requires w > 0
    ensures HostToks(p, w, eos, x.0, [x.1]) == HostStep(p, w, eos, x)
  {
    if x.0 in p.caches {
      assert ArchiveList(p.caches[x.0], [x.1]) == ArchivePut(p.caches[x.0], x.1);
    }
  }

  function HostAll(p: Pool, w: nat, eos: int, batch: Batch): (Pool, seq<(int, nat)>)
    requires w > 0
  {
    if batch == [] then (p, [])
    else
      var k := |batch| - 1;
      var before := HostAll(p, w, eos, batch[..k]);
      var last := HostStep(before.0, w, eos, batch[k]);
      (last.0, before.1 + last.1)
  }

  // ---- what survives ----

  lemma {:induction false} FreeEosAmong(p: Pool, batch: Batch, eos: int)
    ensures Among(FreeEos(p, batch, eos).caches, p.caches)
  {
    if batch != [] { FreeEosAmong(p, batch[..|batch| - 1], eos); }
  }

  lemma {:induction false} HostAllAmong(p: Pool, w: nat, eos: int, batch: Batch)
    requires w > 0
    ensures Among(HostAll(p, w, eos, batch).0.caches, ArchiveAll(p.caches, batch))
  {
    hide ArchivePut;
    if batch != [] { HostAllAmong(p, w, eos, batch[..|batch| - 1]); }
  }

  /** Either kind of step leaves the rings of the sequences that go on showing their archives. */
  lemma StepKeepsInStep(p: Pool, w: nat, eos: int, batch: Batch)
    requires w > 0 && InStep(p.caches, w)
    ensures InStep(FreeEos(Hot(p, UpdateAll(p.caches, w, batch), batch), batch, eos).caches, w)
    ensures InStep(HostAll(Hot(p, DeviceAll(p.caches, w, batch), batch), w, eos, batch).0.caches, w)
  {
    hide InStep, Among, FreeEos, HostAll, UpdateAll, DeviceAll, ArchiveAll;
    var a, b := Hot(p, UpdateAll(p.caches, w, batch), batch), Hot(p, DeviceAll(p.caches, w, batch), batch);
    UpdateKeepsInStep(p.caches, w, batch);
    FreeEosAmong(a, batch, eos);
    AmongInStep(FreeEos(a, batch, eos).caches, a.caches, w);
    DeferredKeepsInStep(p.caches, w, batch);
    HostAllAmong(b, w, eos, batch);
    AmongInStep(HostAll(b, w, eos, batch).0.caches, ArchiveAll(b.caches, batch), w);
  }

  // ---- how the two relate ----

  /** The step counter of a row and its sequence's own counter agree. */
  ghost predicate Counted(p: Pool) {
    forall sid :: sid in p.rowOf && sid in p.caches && p.rowOf[sid] < |p.steps| ==>
        p.steps[p.rowOf[sid]] == p.caches[sid].genCount
  }

  ghost predicate SameRows(a: Pool, b: Pool) {
    a.rowOf == b.rowOf && a.free == b.free && a.steps == b.steps && Sane(a) && Sane(b)
  }

  ghost predicate Related(a: Pool, b: Pool) {
    SameRows(a, b) && Counted(b) && Mirrors(a.caches, b.caches)
  }

  ghost predicate Pending(sid: int, rest: Batch) {
    exists i :: 0 <= i < |rest| && rest[i].0 == sid
  }

  /** `b` still has to archive the tokens of `rest`. */
  ghost predicate Behind(a: Pool, b: Pool, rest: Batch) {
    SameRows(a, b) && Counted(b)
    && (forall i :: 0 <= i < |rest| && rest[i].0 in a.caches ==>
          OneShort(a.caches[rest[i].0], b.caches[rest[i].0], rest[i].1))
    && (forall sid :: sid in a.caches && !Pending(sid, rest) ==> InFull(a.caches[sid], b.caches[sid]))
  }

  ghost predicate InFull(a: Cache, b: Cache) {
    b == a.(genCount := b.genCount) && |b.archive| == b.promptLen + b.genCount
  }

  ghost predicate OneShort(a: Cache, b: Cache, tok: int) {
    InFull(a, ArchivePut(b, tok))
  }

  // ---- freeing ----

  lemma FreeSane(p: Pool, sid: int)
    requires Sane(p)
    ensures Sane(FreeOf(p, sid)) && FreeOf(p, sid).caches == p.caches - {sid} && |FreeOf(p, sid).steps| == |p.steps|
    ensures forall a :: a in p.rowOf && a != sid ==> FreeOf(p, sid).steps[p.rowOf[a]] == p.steps[p.rowOf[a]]
  {
    if sid in p.rowOf { TakeBack(p.rowOf, p.free, |p.steps|, sid); }
  }

  lemma {:induction false} DueElsewhere(sids: seq<int>, p: Pool, sid: int, w: nat)
    requires w > 0 && Sane(p) && sid !in sids
    ensures Due(sids, FreeOf(p, sid).rowOf, FreeOf(p, sid).steps, w) == Due(sids, p.rowOf, p.steps, w)
  {
    if sids != [] {
      var k := |sids| - 1;
      DueElsewhere(sids[..k], p, sid, w);
      FreeSane(p, sid);
      assert sids[k] in sids;
    }
  }

  // ---- the deferred part catches up ----

  lemma PendingTail(rest: Batch, sid: int)
    requires rest != [] && sid != rest[0].0 && Pending(sid, rest)
    ensures Pending(sid, rest[1..])
  {
    var i :| 0 <= i < |rest| && rest[i].0 == sid;
    assert rest[1..][i - 1].0 == sid;
  }

  lemma NotPending(rest: Batch)
    requires rest != [] && DistinctIds(Ids(rest))
    ensures !Pending(rest[0].0, rest[1..])
  {
    forall i | 0 <= i < |rest[1..]|
      ensures rest[1..][i].0 != rest[0].0
    {
      assert Ids(rest)[i + 1] != Ids(rest)[0];
    }
  }

  lemma ArchiveCatchesUp(a: Pool, b: Pool, rest: Batch)
    requires Behind(a, b, rest) && rest != [] && DistinctIds(Ids(rest))
    ensures Behind(a, b.(caches := ArchiveOne(b.caches, rest[0].0, rest[0].1)), rest[1..])
  {
    hide Split;
    var x, b' := rest[0], b.(caches := ArchiveOne(b.caches, rest[0].0, rest[0].1));
    NotPending(rest);
    forall i | 0 <= i < |rest[1..]| && rest[1..][i].0 in a.caches
      ensures OneShort(a.caches[rest[1..][i].0], b'.caches[rest[1..][i].0], rest[1..][i].1)
    {
      assert rest[1..][i] == rest[i + 1] && Pending(rest[1..][i].0, rest[1..]);
    }
    forall sid | sid in a.caches && !Pending(sid, rest[1..])
      ensures InFull(a.caches[sid], b'.caches[sid])
    {
      if sid != x.0 && Pending(sid, rest) { PendingTail(rest, sid); }
    }
  }

  lemma FreeBehind(a: Pool, b: Pool, rest: Batch, sid: int)
    requires Behind(a, b, rest)
    ensures Behind(FreeOf(a, sid), FreeOf(b, sid), rest)
  {
    FreeSane(a, sid);
    FreeSane(b, sid);
    hide Split;
    FreeCounted(b, sid);
  }

  lemma FreeCounted(p: Pool, sid: int)
    requires Sane(p) && Counted(p)
    ensures Counted(FreeOf(p, sid))
  {
    FreeSane(p, sid);
  }

  lemma CatchUpOne(a: Pool, b: Pool, w: nat, eos: int, rest: Batch)
    requires w > 0 && Behind(a, b, rest) && rest != [] && DistinctIds(Ids(rest))
    ensures Behind(if rest[0].1 == eos then FreeOf(a, rest[0].0) else a, HostStep(b, w, eos, rest[0]).0, rest[1..])
    ensures HostStep(b, w, eos, rest[0]).1
            == if rest[0].1 != eos && rest[0].0 in a.rowOf && AtBoundary(a.steps, a.rowOf[rest[0].0], w)
                then [(rest[0].0, a.rowOf[rest[0].0])] else []
  {
    var x := rest[0];
    ArchiveCatchesUp(a, b, rest);
    if x.1 == eos { FreeBehind(a, b.(caches := ArchiveOne(b.caches, x.0, x.1)), rest[1..], x.0); }
    hide Behind, Split;
    KeysAgree(a, b, rest);
    if x.0 !in b.caches {
      assert a.caches - {x.0} == a.caches;
      assert FreeOf(a, x.0) == a;
      assert b.(caches := ArchiveOne(b.caches, x.0, x.1)) == b;
      assert b.caches - {x.0} == b.caches;
    }
  }

  lemma KeysAgree(a: Pool, b: Pool, rest: Batch)
    requires Behind(a, b, rest)
    ensures a.caches.Keys == b.caches.Keys == a.rowOf.Keys && a.rowOf == b.rowOf && a.steps == b.steps
    ensures forall sid :: sid in b.caches ==> a.rowOf[sid] < |a.steps| && a.steps[a.rowOf[sid]] == b.caches[sid].genCount
  {
  }

  /** The two ends of a step report the same proofs and leave the same rows and contexts. */
  lemma {:induction false} FinishAgrees(a: Pool, b: Pool, w: nat, eos: int, batch: Batch, n: nat)
    requires w > 0 && Behind(a, b, batch) && DistinctIds(Ids(batch)) && n <= |batch|
    ensures var a', r := FreeEos(a, batch[..n], eos), HostAll(b, w, eos, batch[..n]);
            Behind(a', r.0, batch[n..]) && r.1 == Due(Ids(batch)[..n], a'.rowOf, a'.steps, w)
  {
    hide Behind, Split, HostStep, Due, FreeOf, DistinctIds;
    if n == 0 {
      assert batch[0..] == batch && batch[..0] == [];
      NoneDue(a.rowOf, a.steps, w);
      return;
    }
    FinishAgrees(a, b, w, eos, batch, n - 1);
    var x, ids := batch[n - 1], Ids(batch);
    var a1, r1 := FreeEos(a, batch[..n - 1], eos), HostAll(b, w, eos, batch[..n - 1]);
    var a2 := FreeEos(a, batch[..n], eos);
    assert batch[..n][..n - 1] == batch[..n - 1] && ids[..n][..n - 1] == ids[..n - 1];
    assert batch[n - 1..][0] == x && batch[n - 1..][1..] == batch[n..];
    TailDistinct(batch, n - 1);
    CatchUpOne(a1, r1.0, w, eos, batch[n - 1..]);
    KeysAgree(a1, r1.0, batch[n - 1..]);
    DueNext(ids, n, a2, w);
    DueFreed(ids, n, a1, r1.0, batch[n - 1..], w);
  }

  lemma NoneDue(rowOf: map<int, nat>, steps: seq<nat>, w: nat)
    requires w > 0
    ensures Due([], rowOf, steps, w) == []
  {
  }

  lemma TailDistinct(batch: Batch, m: nat)
    requires DistinctIds(Ids(batch)) && m <= |batch|
    ensures DistinctIds(Ids(batch[m..]))
  {
    var tail := Ids(batch[m..]);
    assert forall i :: 0 <= i < |tail| ==> tail[i] == Ids(batch)[m + i];
  }

  lemma DueNext(ids: seq<int>, n: nat, p: Pool, w: nat)
    requires w > 0 && 0 < n <= |ids|
    ensures Due(ids[..n], p.rowOf, p.steps, w)
            == Due(ids[..n - 1], p.rowOf, p.steps, w)
               + if ids[n - 1] in p.rowOf && AtBoundary(p.steps, p.rowOf[ids[n - 1]], w)
                   then [(ids[n - 1], p.rowOf[ids[n - 1]])] else []
  {
    assert ids[..n][..n - 1] == ids[..n - 1];
  }

  lemma DueFreed(ids: seq<int>, n: nat, a: Pool, b: Pool, rest: Batch, w: nat)
    requires w > 0 && 0 < n <= |ids| && DistinctIds(ids) && Behind(a, b, rest)
    ensures Due(ids[..n - 1], FreeOf(a, ids[n - 1]).rowOf, FreeOf(a, ids[n - 1]).steps, w)
            == Due(ids[..n - 1], a.rowOf, a.steps, w)
    ensures ids[n - 1] !in FreeOf(a, ids[n - 1]).rowOf
  {
    DueElsewhere(ids[..n - 1], a, ids[n - 1], w);
  }

  // ---- the hot path, and whole steps ----

  /** Each listed sequence takes its own token, the others none. */
  lemma EachTakesItsOwn(caches: Caches, w: nat, batch: Batch)
    requires w > 0 && DistinctIds(Ids(batch))
    ensures UpdateAll(caches, w, batch).Keys == DeviceAll(caches, w, batch).Keys == caches.Keys
    ensures forall i :: 0 <= i < |batch| && batch[i].0 in caches ==>
              UpdateAll(caches, w, batch)[batch[i].0] == RingPut(ArchivePut(caches[batch[i].0], batch[i].1), w, batch[i].1)
              && DeviceAll(caches, w, batch)[batch[i].0]
                 == RingPut(caches[batch[i].0].(genCount := caches[batch[i].0].genCount + 1), w, batch[i].1)
    ensures forall sid :: sid in caches && !Pending(sid, batch) ==>
              UpdateAll(caches, w, batch)[sid] == caches[sid] == DeviceAll(caches, w, batch)[sid]
  {
    hide UpdateAll, DeviceAll, RingPut, ArchivePut;
    AllKeys(caches, w, batch);
    forall i | 0 <= i < |batch| && batch[i].0 in caches
      ensures UpdateAll(caches, w, batch)[batch[i].0] == RingPut(ArchivePut(caches[batch[i].0], batch[i].1), w, batch[i].1)
      ensures DeviceAll(caches, w, batch)[batch[i].0]
              == RingPut(caches[batch[i].0].(genCount := caches[batch[i].0].genCount + 1), w, batch[i].1)
    {
      TakesItsOwn(caches, w, batch, i);
    }
    forall sid | sid in caches && !Pending(sid, batch)
      ensures UpdateAll(caches, w, batch)[sid] == caches[sid] == DeviceAll(caches, w, batch)[sid]
    {
      TakesNothing(caches, w, batch, sid);
    }
  }

  lemma {:induction false} AllKeys(caches: Caches, w: nat, batch: Batch)
    requires w > 0
    ensures UpdateAll(caches, w, batch).Keys == DeviceAll(caches, w, batch).Keys == caches.Keys
  {
    hide RingPut, ArchivePut;
    if batch != [] { AllKeys(caches, w, batch[..|batch| - 1]); }
  }

  lemma {:induction false} TakesNothing(caches: Caches, w: nat, batch: Batch, sid: int)
    requires w > 0 && sid in caches && forall i :: 0 <= i < |batch| ==> batch[i].0 != sid
    ensures sid in UpdateAll(caches, w, batch) && sid in DeviceAll(caches, w, batch)
    ensures UpdateAll(caches, w, batch)[sid] == caches[sid] == DeviceAll(caches, w, batch)[sid]
  {
    hide RingPut, ArchivePut;
    if batch != [] { TakesNothing(caches, w, batch[..|batch| - 1], sid); }
  }

  lemma {:induction false} TakesItsOwn(caches: Caches, w: nat, batch: Batch, i: nat)
    requires w > 0 && DistinctIds(Ids(batch)) && i < |batch| && batch[i].0 in caches
    ensures batch[i].0 in UpdateAll(caches, w, batch) && batch[i].0 in DeviceAll(caches, w, batch)
    ensures UpdateAll(caches, w, batch)[batch[i].0] == RingPut(ArchivePut(caches[batch[i].0], batch[i].1), w, batch[i].1)
    ensures DeviceAll(caches, w, batch)[batch[i].0]
            == RingPut(caches[batch[i].0].(genCount := caches[batch[i].0].genCount + 1), w, batch[i].1)
  {
    hide RingPut, ArchivePut;
    var k := |batch| - 1;
    assert forall j :: 0 <= j <= k ==> Ids(batch)[j] == batch[j].0;
    if i == k {
      TakesNothing(caches, w, batch[..k], batch[k].0);
    } else {
      assert Ids(batch)[..k] == Ids(batch[..k]) && Ids(batch)[i] != Ids(batch)[k];
      TakesItsOwn(caches, w, batch[..k], i);
    }
  }

  lemma {:induction false} BothTakeNothing(caches: Caches, w: nat, batch: Batch, sid: int)
    requires w > 0 && sid in caches && forall i :: 0 <= i < |batch| ==> batch[i].0 != sid
    ensures sid in BothAll(caches, w, batch) && BothAll(caches, w, batch)[sid] == caches[sid]
  {
    hide RingPut, ArchivePut;
    if batch != [] { BothTakeNothing(caches, w, batch[..|batch| - 1], sid); }
  }

  lemma {:induction false} BothTakeTheirOwn(caches: Caches, w: nat, batch: Batch, i: nat)
    requires w > 0 && DistinctIds(Ids(batch)) && i < |batch| && batch[i].0 in caches
    ensures batch[i].0 in BothAll(caches, w, batch)
    ensures BothAll(caches, w, batch)[batch[i].0]
            == ArchivePut(RingPut(caches[batch[i].0].(genCount := caches[batch[i].0].genCount + 1), w, batch[i].1), batch[i].1)
  {
    hide RingPut, ArchivePut;
    var k := |batch| - 1;
    assert forall j :: 0 <= j <= k ==> Ids(batch)[j] == batch[j].0;
    if i == k {
      BothTakeNothing(caches, w, batch[..k], batch[k].0);
    } else {
      assert Ids(batch)[..k] == Ids(batch[..k]) && Ids(batch)[i] != Ids(batch)[k];
      BothTakeTheirOwn(caches, w, batch[..k], i);
    }
  }

  ghost predicate Taken(c: Cache, d: Cache, tok: int) {
    d.archive == c.archive + [tok] && d.padMask == c.padMask + [false] && d.promptLen == c.promptLen
  }

  /** Every listed context has its token at the end of its archive, the others are as they were. */
  ghost predicate Extended(s: Caches, t: Caches, batch: Batch) {
    (forall sid :: sid in t ==> sid in s && (!Pending(sid, batch) ==> t[sid] == s[sid]))
    && forall i :: 0 <= i < |batch| && batch[i].0 in t && batch[i].0 in s ==> Taken(s[batch[i].0], t[batch[i].0], batch[i].1)
  }

  lemma StepExtends(p: Pool, w: nat, eos: int, batch: Batch)
    requires w > 0 && DistinctIds(Ids(batch))
    ensures Extended(p.caches, FreeEos(Hot(p, UpdateAll(p.caches, w, batch), batch), batch, eos).caches, batch)
    ensures Extended(p.caches, HostAll(Hot(p, DeviceAll(p.caches, w, batch), batch), w, eos, batch).0.caches, batch)
  {
    hide FreeEos, HostAll, UpdateAll, DeviceAll, ArchiveAll, BothAll, DistinctIds, Ids;
    var a, b := Hot(p, UpdateAll(p.caches, w, batch), batch), Hot(p, DeviceAll(p.caches, w, batch), batch);
    FreeEosAmong(a, batch, eos);
    HostAllAmong(b, w, eos, batch);
    SplitIsBoth(p.caches, w, batch);
    AllKeys(p.caches, w, batch);
    CountersKept(DeviceAll(p.caches, w, batch), batch);
    EachTakesItsOwn(p.caches, w, batch);
    forall sid | sid in p.caches && !Pending(sid, batch)
      ensures sid in BothAll(p.caches, w, batch) && BothAll(p.caches, w, batch)[sid] == p.caches[sid]
    {
      BothTakeNothing(p.caches, w, batch, sid);
    }
    forall i | 0 <= i < |batch| && batch[i].0 in p.caches
      ensures batch[i].0 in BothAll(p.caches, w, batch)
      ensures Taken(p.caches[batch[i].0], BothAll(p.caches, w, batch)[batch[i].0], batch[i].1)
    {
      BothTakeTheirOwn(p.caches, w, batch, i);
    }
  }

  lemma HotBehind(a: Pool, b: Pool, w: nat, batch: Batch)
    requires w > 0 && Related(a, b) && DistinctIds(Ids(batch))
    ensures Behind(Hot(a, UpdateAll(a.caches, w, batch), batch), Hot(b, DeviceAll(b.caches, w, batch), batch), batch)
  {
    HotCounted(b, w, batch);
    SplitKept(a, Hot(a, a.caches, batch).steps);
    HotCaches(a.caches, b.caches, w, batch);
    hide UpdateAll, DeviceAll, Split, OneShort, InFull, Pending;
  }

  lemma TakesShort(a: Cache, b: Cache, w: nat, tok: int)
    requires w > 0 && InFull(a, b)
    ensures OneShort(RingPut(ArchivePut(a, tok), w, tok), RingPut(b.(genCount := b.genCount + 1), w, tok), tok)
  {
  }

  lemma HotCaches(a: Caches, b: Caches, w: nat, batch: Batch)
    requires w > 0 && Mirrors(a, b) && DistinctIds(Ids(batch))
    ensures UpdateAll(a, w, batch).Keys == DeviceAll(b, w, batch).Keys == a.Keys
    ensures forall i :: 0 <= i < |batch| && batch[i].0 in a ==>
              OneShort(UpdateAll(a, w, batch)[batch[i].0], DeviceAll(b, w, batch)[batch[i].0], batch[i].1)
    ensures forall sid :: sid in a && !Pending(sid, batch) ==> InFull(UpdateAll(a, w, batch)[sid], DeviceAll(b, w, batch)[sid])
  {
    EachTakesItsOwn(a, w, batch);
    EachTakesItsOwn(b, w, batch);
    hide UpdateAll, DeviceAll, OneShort, RingPut, ArchivePut;
    forall i | 0 <= i < |batch| && batch[i].0 in a
      ensures OneShort(UpdateAll(a, w, batch)[batch[i].0], DeviceAll(b, w, batch)[batch[i].0], batch[i].1)
    {
      TakesShort(a[batch[i].0], b[batch[i].0], w, batch[i].1);
    }
  }

  /** Row counters and sequence counters advance together. */
  lemma HotCounted(p: Pool, w: nat, batch: Batch)
    requires w > 0 && Sane(p) && Counted(p) && DistinctIds(Ids(batch))
    ensures Counted(Hot(p, DeviceAll(p.caches, w, batch), batch))
  {
    EachTakesItsOwn(p.caches, w, batch);
    hide UpdateAll, DeviceAll, Split;
    forall sid | sid in p.rowOf
      ensures p.rowOf[sid] < |p.steps| && sid in p.caches
      ensures p.rowOf[sid] in LentRows(Ids(batch), p.rowOf) <==> Pending(sid, batch)
    {
      RowListed(Ids(batch), p, sid);
      SplitRow(p, sid);
      IsListed(batch, sid);
    }
  }

  lemma IsListed(batch: Batch, sid: int)
    ensures sid in Ids(batch) <==> Pending(sid, batch)
  {
    if Pending(sid, batch) {
      var i :| 0 <= i < |batch| && batch[i].0 == sid;
      assert Ids(batch)[i] == sid;
    }
  }

  lemma SplitKept(p: Pool, steps: seq<nat>)
    requires Sane(p) && |steps| == |p.steps|
    ensures Split(p.rowOf, p.free, |steps|)
  {
  }

  lemma SplitRow(p: Pool, sid: int)
    requires Sane(p) && sid in p.rowOf
    ensures p.rowOf[sid] < |p.steps| && sid in p.caches
  {
  }

  lemma {:induction false} RowListed(ids: seq<int>, p: Pool, sid: int)
    requires Sane(p) && sid in p.rowOf
    ensures p.rowOf[sid] in LentRows(ids, p.rowOf) <==> sid in ids
  {
    if ids != [] {
      var front, last := ids[..|ids| - 1], ids[|ids| - 1];
      RowListed(front, p, sid);
      assert ids == front + [last];
      assert sid in ids <==> sid in front || sid == last;
      assert last in p.rowOf ==> (p.rowOf[sid] == p.rowOf[last] <==> sid == last);
      assert last in p.rowOf ==> (p.rowOf[sid] in LentRows(front, p.rowOf) + [p.rowOf[last]]
                                  <==> p.rowOf[sid] in LentRows(front, p.rowOf) || p.rowOf[sid] == p.rowOf[last]);
    }
  }

  /** A decode step done whole and one done in two parts report the same proofs and stay related:
      same rows, free queue, counters, rings and archives. */
  lemma DecodeStepAgrees(a: Pool, b: Pool, w: nat, eos: int, batch: Batch)
    requires w > 0 && Related(a, b) && DistinctIds(Ids(batch))
    ensures var a' := FreeEos(Hot(a, UpdateAll(a.caches, w, batch), batch), batch, eos);
            var r := HostAll(Hot(b, DeviceAll(b.caches, w, batch), batch), w, eos, batch);
            Related(a', r.0) && r.1 == Due(Ids(batch), a'.rowOf, a'.steps, w)
  {
    var a1, b1 := Hot(a, UpdateAll(a.caches, w, batch), batch), Hot(b, DeviceAll(b.caches, w, batch), batch);
    HotBehind(a, b, w, batch);
    FinishAgrees(a1, b1, w, eos, batch, |batch|);
    assert batch[..|batch|] == batch && Ids(batch)[..|batch|] == Ids(batch);
    NothingBehind(FreeEos(a1, batch, eos), HostAll(b1, w, eos, batch).0, batch[|batch|..]);
  }

  lemma NothingBehind(a: Pool, b: Pool, rest: Batch)
    requires Behind(a, b, rest) && rest == []
    ensures Related(a, b)
  {
    forall sid | sid in a.caches
      ensures !Pending(sid, rest) && InFull(a.caches[sid], b.caches[sid])
    {
      assert !Pending(sid, rest);
    }
  }
}
