/** The per-sequence context: a circular window on the device beside an append-only archive. */
module ContextRing {
  import opened Circular

  datatype Cache = Cache(archive: seq<int>, padMask: seq<bool>, ring: seq<int>, pos: nat, filled: nat, genCount: nat,
                         promptLen: nat)

  function Min(a: nat, b: nat): nat { if a < b then a else b }
  function Max(a: nat, b: nat): nat { if a < b then b else a }

  /** The step-message window: a zero array with the last tokens copied to its right end. */
  function MessageWindow(context: seq<int>, w: nat): seq<int> {
    var ctx := if |context| <= w then context else context[|context| - w..];
    seq(w - |ctx|, _ => 0) + ctx
  }

  lemma MessageWindowIsTail(context: seq<int>, w: nat)
    ensures MessageWindow(context, w) == LastW(context, w, 0)
  {
  }

  function InitCache(prompt: seq<int>, w: nat): Cache
    requires w > 0
  {
    var tail := if |prompt| <= w then prompt else prompt[|prompt| - w..];
    Cache(prompt, seq(|prompt|, _ => false), tail + seq(w - |tail|, _ => 0), |tail| % w, Min(|tail|, w), 0, |prompt|)
  }

  /** The ring alone takes the token. */
  function RingPut(c: Cache, w: nat, tok: int): Cache
    requires w > 0
  {
    c.(ring := if c.pos < |c.ring| then c.ring[c.pos := tok] else c.ring, pos := (c.pos + 1) % w, filled := Min(c.filled + 1, w))
  }

  function ArchivePut(c: Cache, tok: int): Cache {
    c.(archive := c.archive + [tok], padMask := c.padMask + [false])
  }

  /** The ring shows `stream`; `filled` says how much of it is left. */
  ghost predicate RingShows(c: Cache, stream: seq<int>, w: nat) {
    Shows(c.ring, c.pos, stream, w, 0) && c.filled == Min(|stream|, w)
  }

  lemma InitShows(prompt: seq<int>, w: nat)
    requires w > 0
    ensures RingShows(InitCache(prompt, w), prompt, w)
    ensures var c := InitCache(prompt, w);
            c.archive == prompt && c.padMask == seq(|prompt|, _ => false) && c.genCount == 0 && c.promptLen == |prompt|
  {
    TailShows(prompt, w, 0);
  }

  lemma PutShows(c: Cache, stream: seq<int>, w: nat, tok: int)
    requires w > 0 && RingShows(c, stream, w)
    ensures RingShows(RingPut(c, w, tok), stream + [tok], w)
  {
    WriteAppends(c.ring, c.pos, stream, w, 0, tok);
  }

  lemma WindowOf(c: Cache, w: nat)
    requires RingShows(c, c.archive, w)
    ensures c.pos < |c.ring|
    ensures (if c.pos == 0 then c.ring else c.ring[c.pos..] + c.ring[..c.pos]) == MessageWindow(c.archive, w)
  {
    MessageWindowIsTail(c.archive, w);
    if c.pos == 0 { assert Rotated(c.ring, 0) == c.ring; }
  }

  // ---- what a batch does, as functions ----

  type Caches = map<int, Cache>

  function UpdateOne(caches: Caches, w: nat, sid: int, tok: int): Caches
    requires w > 0
  {
    if sid in caches then caches[sid := RingPut(ArchivePut(caches[sid], tok), w, tok)] else caches
  }

  function DeviceOne(caches: Caches, w: nat, sid: int, tok: int): Caches
    requires w > 0
  {
    if sid in caches then
      var c := caches[sid];
      caches[sid := RingPut(c.(genCount := c.genCount + 1), w, tok)]
    else caches
  }

  function ArchiveOne(caches: Caches, sid: int, tok: int): Caches {
    if sid in caches then caches[sid := ArchivePut(caches[sid], tok)] else caches
  }

  /** One decode step: the sequences of the batch with their sampled tokens. */
  type Batch = seq<(int, int)>

  function UpdateAll(caches: Caches, w: nat, batch: Batch): Caches
    requires w > 0
  {
    if batch == [] then caches
    else
      var k := |batch| - 1;
      UpdateOne(UpdateAll(caches, w, batch[..k]), w, batch[k].0, batch[k].1)
  }

  function DeviceAll(caches: Caches, w: nat, batch: Batch): Caches
    requires w > 0
  {
    if batch == [] then caches
    else
      var k := |batch| - 1;
      DeviceOne(DeviceAll(caches, w, batch[..k]), w, batch[k].0, batch[k].1)
  }

  function ArchiveAll(caches: Caches, batch: Batch): Caches {
    if batch == [] then caches
    else
      var k := |batch| - 1;
      ArchiveOne(ArchiveAll(caches, batch[..k]), batch[k].0, batch[k].1)
  }

  /** The longest archive met while the batch was applied, at least 1. */
  function LongestUpdated(caches: Caches, w: nat, batch: Batch): nat
    requires w > 0
  {
    if batch == [] then 1
    else
      var k := |batch| - 1;
      var before, after := LongestUpdated(caches, w, batch[..k]), UpdateAll(caches, w, batch);
      if batch[k].0 in after then Max(before, |after[batch[k].0].archive|) else before
  }

  /** The same from the counters alone. */
  function LongestCounted(caches: Caches, w: nat, batch: Batch): nat
    requires w > 0
  {
    if batch == [] then 1
    else
      var k := |batch| - 1;
      var before, after := LongestCounted(caches, w, batch[..k]), DeviceAll(caches, w, batch);
      if batch[k].0 in after then Max(before, after[batch[k].0].promptLen + after[batch[k].0].genCount) else before
  }

  /** That is the greatest length of a listed archive after the update, or 1. */
  lemma {:induction false} LongestIsMax(caches: Caches, w: nat, batch: Batch)
    requires w > 0
    ensures LongestUpdated(caches, w, batch) >= 1 && UpdateAll(caches, w, batch).Keys == caches.Keys
    ensures forall x :: x in batch && x.0 in caches ==>
              |UpdateAll(caches, w, batch)[x.0].archive| <= LongestUpdated(caches, w, batch)
    ensures LongestUpdated(caches, w, batch) == 1
            || exists x :: x in batch && x.0 in caches
                && |UpdateAll(caches, w, batch)[x.0].archive| == LongestUpdated(caches, w, batch)
  {
    hide RingPut;
    if batch != [] {
      var k := |batch| - 1;
      var front, last := batch[..k], batch[k];
      LongestIsMax(caches, w, front);
      assert batch == front + [last];
      assert forall x :: x in batch <==> x in front || x == last;
      var before, after := UpdateAll(caches, w, front), UpdateAll(caches, w, batch);
      ArchivePuts(before, w, last);
      assert forall x :: x in front && x.0 in caches ==> |before[x.0].archive| <= LongestUpdated(caches, w, front);
      if last.0 !in caches || LongestUpdated(caches, w, front) > |after[last.0].archive| {
        if LongestUpdated(caches, w, front) > 1 {
          var x :| x in front && x.0 in caches && |before[x.0].archive| == LongestUpdated(caches, w, front);
          assert x in batch && x.0 in caches;
        }
      } else {
        assert last in batch && last.0 in caches;
      }
    }
  }

  lemma ArchivePuts(caches: Caches, w: nat, x: (int, int))
    requires w > 0
    ensures var t := UpdateOne(caches, w, x.0, x.1);
            t.Keys == caches.Keys && forall sid :: sid in caches ==>
              t[sid].archive == if sid == x.0 then caches[sid].archive + [x.1] else caches[sid].archive
  {
  }

  /** From the counters, the greatest prompt length plus count. */
  lemma {:induction false} CountedIsMax(caches: Caches, w: nat, batch: Batch)
    requires w > 0
    ensures LongestCounted(caches, w, batch) >= 1 && DeviceAll(caches, w, batch).Keys == caches.Keys
    ensures forall x :: x in batch && x.0 in caches ==>
              Expected(DeviceAll(caches, w, batch)[x.0]) <= LongestCounted(caches, w, batch)
    ensures LongestCounted(caches, w, batch) == 1
            || exists x :: x in batch && x.0 in caches
                && Expected(DeviceAll(caches, w, batch)[x.0]) == LongestCounted(caches, w, batch)
  {
    hide RingPut;
    if batch != [] {
      var k := |batch| - 1;
      var front, last := batch[..k], batch[k];
      CountedIsMax(caches, w, front);
      assert batch == front + [last];
      assert forall x :: x in batch <==> x in front || x == last;
      var before, after := DeviceAll(caches, w, front), DeviceAll(caches, w, batch);
      CountPuts(before, w, last);
      assert forall x :: x in front && x.0 in caches ==> Expected(before[x.0]) <= LongestCounted(caches, w, front);
      if last.0 !in caches || LongestCounted(caches, w, front) > Expected(after[last.0]) {
        if LongestCounted(caches, w, front) > 1 {
          var x :| x in front && x.0 in caches && Expected(before[x.0]) == LongestCounted(caches, w, front);
          assert x in batch && x.0 in caches;
        }
      } else {
        assert last in batch && last.0 in caches;
      }
    }
  }

  function Expected(c: Cache): nat { c.promptLen + c.genCount }

  lemma CountPuts(caches: Caches, w: nat, x: (int, int))
    requires w > 0
    ensures var t := DeviceOne(caches, w, x.0, x.1);
            t.Keys == caches.Keys && forall sid :: sid in caches ==>
              Expected(t[sid]) == if sid == x.0 then Expected(caches[sid]) + 1 else Expected(caches[sid])
  {
  }

  // ---- the windows stay right ----

  /** Every ring shows its own archive, which starts with the prompt. */
  ghost predicate InStep(caches: Caches, w: nat) {
    forall sid :: sid in caches ==>
      RingShows(caches[sid], caches[sid].archive, w) && |caches[sid].padMask| == |caches[sid].archive|
  }

  lemma {:induction false} UpdateKeepsInStep(caches: Caches, w: nat, batch: Batch)
    requires w > 0 && InStep(caches, w)
    ensures InStep(UpdateAll(caches, w, batch), w) && UpdateAll(caches, w, batch).Keys == caches.Keys
  {
    if batch != [] {
      var k := |batch| - 1;
      UpdateKeepsInStep(caches, w, batch[..k]);
      var before, sid := UpdateAll(caches, w, batch[..k]), batch[k].0;
      if sid in before { PutShows(before[sid], before[sid].archive, w, batch[k].1); }
    }
  }

  // ---- the deferred split ----

  /** `b` is `a` with the token counters kept, which count the archive beyond the prompt. */
  ghost predicate Mirrors(a: Caches, b: Caches) {
    a.Keys == b.Keys
    && forall sid :: sid in a ==>
         b[sid] == a[sid].(genCount := b[sid].genCount) && |b[sid].archive| == b[sid].promptLen + b[sid].genCount
  }

  function BothAll(caches: Caches, w: nat, batch: Batch): Caches
    requires w > 0
  {
    if batch == [] then caches
    else
      var k := |batch| - 1;
      ArchiveOne(DeviceOne(BothAll(caches, w, batch[..k]), w, batch[k].0, batch[k].1), batch[k].0, batch[k].1)
  }

  lemma OnesCommute(caches: Caches, w: nat, x: (int, int), y: (int, int))
    requires w > 0
    ensures ArchiveOne(DeviceOne(caches, w, x.0, x.1), y.0, y.1) == DeviceOne(ArchiveOne(caches, y.0, y.1), w, x.0, x.1)
  {
    var l, r := ArchiveOne(DeviceOne(caches, w, x.0, x.1), y.0, y.1), DeviceOne(ArchiveOne(caches, y.0, y.1), w, x.0, x.1);
    assert forall sid :: sid in caches ==> l[sid] == r[sid];
  }

  lemma {:induction false} ArchiveAfterOne(caches: Caches, w: nat, batch: Batch, x: (int, int))
    requires w > 0
    ensures ArchiveAll(DeviceOne(caches, w, x.0, x.1), batch) == DeviceOne(ArchiveAll(caches, batch), w, x.0, x.1)
  {
    if batch != [] {
      var k := |batch| - 1;
      ArchiveAfterOne(caches, w, batch[..k], x);
      OnesCommute(ArchiveAll(caches, batch[..k]), w, x, batch[k]);
    }
  }

  /** Deferring the archive to the end of the step changes nothing. */
  lemma {:induction false} SplitIsBoth(caches: Caches, w: nat, batch: Batch)
    requires w > 0
    ensures ArchiveAll(DeviceAll(caches, w, batch), batch) == BothAll(caches, w, batch)
  {
    if batch != [] {
      var k := |batch| - 1;
      SplitIsBoth(caches, w, batch[..k]);
      ArchiveAfterOne(DeviceAll(caches, w, batch[..k]), w, batch[..k], batch[k]);
    }
  }

  lemma MirrorOne(a: Caches, b: Caches, w: nat, x: (int, int))
    requires w > 0 && Mirrors(a, b)
    ensures Mirrors(UpdateOne(a, w, x.0, x.1), ArchiveOne(DeviceOne(b, w, x.0, x.1), x.0, x.1))
  {
  }

  lemma {:induction false} MirrorBoth(a: Caches, b: Caches, w: nat, batch: Batch)
    requires w > 0 && Mirrors(a, b)
    ensures Mirrors(UpdateAll(a, w, batch), BothAll(b, w, batch))
  {
    if batch != [] {
      var k := |batch| - 1;
      MirrorBoth(a, b, w, batch[..k]);
      MirrorOne(UpdateAll(a, w, batch[..k]), BothAll(b, w, batch[..k]), w, batch[k]);
    }
  }

  lemma CountersKept(caches: Caches, batch: Batch)
    ensures ArchiveAll(caches, batch).Keys == caches.Keys
    ensures forall sid :: sid in caches ==> ArchiveAll(caches, batch)[sid].genCount == caches[sid].genCount
                                            && ArchiveAll(caches, batch)[sid].promptLen == caches[sid].promptLen
  {
  }

  lemma {:induction false} SameLongest(a: Caches, b: Caches, w: nat, batch: Batch)
    requires w > 0 && Mirrors(a, b)
    ensures LongestUpdated(a, w, batch) == LongestCounted(b, w, batch)
  {
    if batch != [] {
      var k := |batch| - 1;
      SameLongest(a, b, w, batch[..k]);
      MirrorBoth(a, b, w, batch);
      SplitIsBoth(b, w, batch);
      CountersKept(DeviceAll(b, w, batch), batch);
    }
  }

  /** A step done in two parts leaves the rings, archives and counters as one whole update does,
      and sees the same longest sequence, hence the same page flip. */
  lemma DeferredSplit(a: Caches, b: Caches, w: nat, batch: Batch)
    requires w > 0 && Mirrors(a, b)
    ensures Mirrors(UpdateAll(a, w, batch), ArchiveAll(DeviceAll(b, w, batch), batch))
    ensures LongestUpdated(a, w, batch) == LongestCounted(b, w, batch)
  {
    SplitIsBoth(b, w, batch);
    MirrorBoth(a, b, w, batch);
    SameLongest(a, b, w, batch);
  }

  /** A step done in two parts leaves every ring showing its archive, as a whole one does. */
  lemma DeferredKeepsInStep(caches: Caches, w: nat, batch: Batch)
    requires w > 0 && InStep(caches, w)
    ensures InStep(ArchiveAll(DeviceAll(caches, w, batch), batch), w)
  {
    SplitIsBoth(caches, w, batch);
    BothKeepsInStep(caches, w, batch);
  }

  lemma {:induction false} BothKeepsInStep(caches: Caches, w: nat, batch: Batch)
    requires w > 0 && InStep(caches, w)
    ensures InStep(BothAll(caches, w, batch), w)
  {
    hide RingPut, ArchivePut;
    if batch != [] {
      var k := |batch| - 1;
      BothKeepsInStep(caches, w, batch[..k]);
      var before, sid := BothAll(caches, w, batch[..k]), batch[k].0;
      if sid in before { BothPut(before[sid], w, batch[k].1); }
    }
  }

  lemma BothPut(c: Cache, w: nat, tok: int)
    requires w > 0 && RingShows(c, c.archive, w) && |c.padMask| == |c.archive|
    ensures var d := ArchivePut(RingPut(c.(genCount := c.genCount + 1), w, tok), tok);
            RingShows(d, d.archive, w) && |d.padMask| == |d.archive|
  {
    PutShows(c, c.archive, w, tok);
  }

  /** Some of the contexts of `b`. */
  ghost predicate Among(a: Caches, b: Caches) {
    forall sid :: sid in a ==> sid in b && a[sid] == b[sid]
  }

  lemma AmongInStep(a: Caches, b: Caches, w: nat)
    requires Among(a, b) && InStep(b, w)
    ensures InStep(a, w)
  {
  }

  // ---- the helper's own state ----

  class Contexts {
    const w: nat
    const page: nat
    var caches: Caches
    var prevMaxLen: nat

    ghost predicate Valid() reads this { w > 0 && page > 0 }

    constructor (w: nat, page: nat)
      requires w > 0 && page > 0
      ensures Valid() && this.w == w && this.page == page && caches == map[] && prevMaxLen == 0
    {
      this.w, this.page := w, page;
      caches, prevMaxLen := map[], 0;
    }

    method InitSequenceCache(sid: int, prompt: seq<int>)
      requires Valid()
      modifies this`caches
      ensures caches == old(caches)[sid := InitCache(prompt, w)]
      ensures InStep(old(caches), w) ==> InStep(caches, w)
    {
      InitShows(prompt, w);
      caches := caches[sid := InitCache(prompt, w)];
    }

    /** What the step message of each sequence hashes. */
    method GetContextWindows(sids: seq<int>) returns (out: seq<seq<int>>)
      requires Valid() && InStep(caches, w) && forall i :: 0 <= i < |sids| ==> sids[i] in caches
      ensures |out| == |sids|
      ensures forall i :: 0 <= i < |sids| ==> out[i] == MessageWindow(caches[sids[i]].archive, w)
    {
      hide MessageWindow, RingShows;
      assert forall sid :: sid in sids ==> RingShows(caches[sid], caches[sid].archive, w);
      out := [];
      for i := 0 to |sids|
        invariant |out| == i && unchanged(this)
        invariant forall j :: 0 <= j < i ==> out[j] == MessageWindow(caches[sids[j]].archive, w)
      {
        var c := caches[sids[i]];
        WindowOf(c, w);
        out := out + [if c.pos == 0 then c.ring else c.ring[c.pos..] + c.ring[..c.pos]];
      }
    }

    method UpdateCaches(batch: Batch) returns (flip: bool)
      requires Valid()
      modifies this
      ensures Valid() && caches == UpdateAll(old(caches), w, batch) && prevMaxLen == LongestUpdated(old(caches), w, batch)
      ensures flip <==> old(prevMaxLen) / page != prevMaxLen / page
    {
      var longest := 1;
      for i := 0 to |batch|
        invariant caches == UpdateAll(old(caches), w, batch[..i]) && longest == LongestUpdated(old(caches), w, batch[..i])
        invariant prevMaxLen == old(prevMaxLen) && longest >= 1
      {
        var (sid, tok) := batch[i];
        assert batch[..i + 1][..i] == batch[..i];
        if sid !in caches { continue; }
        var c := ArchivePut(caches[sid], tok);
        caches := caches[sid := RingPut(c, w, tok)];
        longest := Max(longest, |c.archive|);
      }
      assert batch[..|batch|] == batch;
      flip := prevMaxLen / page != longest / page && longest > 0;
      prevMaxLen := longest;
    }

    method UpdateCachesDeviceOnly(batch: Batch) returns (flip: bool)
      requires Valid()
      modifies this
      ensures Valid() && caches == DeviceAll(old(caches), w, batch) && prevMaxLen == LongestCounted(old(caches), w, batch)
      ensures flip <==> old(prevMaxLen) / page != prevMaxLen / page
    {
      var longest := 1;
      for i := 0 to |batch|
        invariant caches == DeviceAll(old(caches), w, batch[..i]) && longest == LongestCounted(old(caches), w, batch[..i])
        invariant prevMaxLen == old(prevMaxLen) && longest >= 1
      {
        var (sid, tok) := batch[i];
        assert batch[..i + 1][..i] == batch[..i];
        if sid !in caches { continue; }
        var count := caches[sid].genCount + 1;
        var c := RingPut(caches[sid], w, tok).(genCount := count);
        caches := caches[sid := c];
        longest := Max(longest, c.promptLen + count);
      }
      assert batch[..|batch|] == batch;
      flip := prevMaxLen / page != longest / page && longest > 0;
      prevMaxLen := longest;
    }
  }
}
