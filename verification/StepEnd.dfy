/** The end of a decode step: end-of-sequence clean-up and window boundaries, done at once or
    deferred to the host, with the boundary read on the host or on the device. */
module StepEnd {
  import opened Circular
  import opened ContextRing
  import opened Rows
  import Arith

  /** The state both variants keep: contexts, lent rows, free rows and per-row step counts. */
  datatype Pool = Pool(caches: Caches, rowOf: map<int, nat>, free: seq<nat>, steps: seq<nat>)

  ghost predicate Sane(p: Pool) {
    Split(p.rowOf, p.free, |p.steps|) && p.caches.Keys == p.rowOf.Keys
  }

  function FreeOf(p: Pool, sid: int): Pool {
    if sid in p.rowOf then
      Pool(p.caches - {sid}, p.rowOf - {sid}, p.free + [p.rowOf[sid]],
           if p.rowOf[sid] < |p.steps| then p.steps[p.rowOf[sid] := 0] else p.steps)
    else p.(caches := p.caches - {sid})
  }

  // ---- window boundaries ----

  predicate AtBoundary(steps: seq<nat>, row: nat, w: nat)
    requires w > 0
  {
    row < |steps| && steps[row] > 0 && steps[row] % w == 0
  }

  /** The proofs due: each listed sequence with a row whose count is on a window boundary. */
  function Due(sids: seq<int>, rowOf: map<int, nat>, steps: seq<nat>, w: nat): seq<(int, nat)>
    requires w > 0
  {
    if sids == [] then []
    else
      var k := |sids| - 1;
      var sid := sids[k];
      Due(sids[..k], rowOf, steps, w) + (if sid in rowOf && AtBoundary(steps, rowOf[sid], w) then [(sid, rowOf[sid])] else [])
  }

  /** The rows of the listed sequences that have one. */
  function LentRows(sids: seq<int>, rowOf: map<int, nat>): (r: seq<nat>)
    ensures |r| <= |sids|
  {
    if sids == [] then []
    else LentRows(sids[..|sids| - 1], rowOf) + (if sids[|sids| - 1] in rowOf then [rowOf[sids[|sids| - 1]]] else [])
  }

  /** Row `j` of the filtered rows is paired with the `j`-th id of the unfiltered list. */
  function Paired(sids: seq<int>, rows: seq<nat>, steps: seq<nat>, w: nat): seq<(int, nat)>
    requires w > 0 && |rows| <= |sids|
  {
    if rows == [] then []
    else
      var k := |rows| - 1;
      Paired(sids, rows[..k], steps, w) + (if AtBoundary(steps, rows[k], w) then [(sids[k], rows[k])] else [])
  }

  /** A proof is due for a listed sequence with a row exactly when its count is a positive multiple of
      the window. */
  lemma {:induction false} DueExactly(sids: seq<int>, rowOf: map<int, nat>, steps: seq<nat>, w: nat, sid: int, row: nat)
    requires w > 0
    ensures (sid, row) in Due(sids, rowOf, steps, w)
            <==> sid in sids && sid in rowOf && rowOf[sid] == row < |steps| && steps[row] > 0 && steps[row] % w == 0
  {
    if sids != [] {
      var k := |sids| - 1;
      DueExactly(sids[..k], rowOf, steps, w, sid, row);
      assert sids == sids[..k] + [sids[k]];
    }
  }

  /** With one sequence listed the two tests are one. */
  lemma DueAlone(sid: int, rowOf: map<int, nat>, steps: seq<nat>, w: nat)
    requires w > 0 && sid in rowOf && rowOf[sid] < |steps|
    ensures LentRows([sid], rowOf) == [rowOf[sid]]
    ensures var due := if steps[rowOf[sid]] > 0 && steps[rowOf[sid]] % w == 0 then [(sid, rowOf[sid])] else [];
            Due([sid], rowOf, steps, w) == due == Paired([sid], [rowOf[sid]], steps, w)
  {
    assert [sid][..0] == [] && [rowOf[sid]][..0] == [];
  }

  // ---- the windows proved in a run ----

  /** The windows on record at the boundaries of a growing log. */
  function DueWindows<T>(log: seq<T>, w: nat, pad: T): seq<seq<T>>
    requires w > 0
  {
    if log == [] then []
    else DueWindows(log[..|log| - 1], w, pad) + (if |log| % w == 0 then [LastW(log, w, pad)] else [])
  }

  lemma NoneDueYet<T>(w: nat, pad: T)
    requires w > 0
    ensures DueWindows([], w, pad) == []
  {
  }

  lemma OneMore<T>(log: seq<T>, x: T, w: nat, pad: T)
    requires w > 0
    ensures DueWindows(log + [x], w, pad)
            == DueWindows(log, w, pad) + if (|log| + 1) % w == 0 then [LastW(log + [x], w, pad)] else []
  {
    assert (log + [x])[..|log|] == log;
  }

  function Flat<T>(parts: seq<seq<T>>): seq<T> {
    if parts == [] then [] else Flat(parts[..|parts| - 1]) + parts[|parts| - 1]
  }

  function FullWindows(n: nat, w: nat): nat
    requires w > 0
  {
    n / w
  }

  /** The length of all full windows together. */
  function Covered(n: nat, w: nat): (r: nat)
    requires w > 0
    ensures r <= n
  {
    Arith.DivIsFloor(n, w, 0);
    assert w * (n / w) == n / w * w;
    n / w * w
  }

  /** One for each full window, and one after the other they are the beginning of the log. */
  lemma {:induction false} DueWindowsTile<T>(log: seq<T>, w: nat, pad: T)
    requires w > 0
    ensures |DueWindows(log, w, pad)| == FullWindows(|log|, w)
    ensures Flat(DueWindows(log, w, pad)) == log[..Covered(|log|, w)]
  {
    hide LastW, FullWindows, Covered, Flat;
    var n := |log|;
    if n == 0 {
      NoWindows<T>(w);
    } else {
      DueWindowsTile(log[..n - 1], w, pad);
      NextWindow(n, w);
      var before := DueWindows(log[..n - 1], w, pad);
      if n % w == 0 {
        WindowTiles(log, w, pad, before, n - w);
      } else {
        assert before + [] == before;
        assert log[..n - 1][..Covered(n - 1, w)] == log[..Covered(n, w)];
      }
    }
  }

  lemma NoWindows<T>(w: nat)
    requires w > 0
    ensures FullWindows(0, w) == 0 && Covered(0, w) == 0 && Flat<T>([]) == []
  {
    Arith.SmallMod(0, w);
  }

  lemma WindowTiles<T>(log: seq<T>, w: nat, pad: T, before: seq<seq<T>>, m: nat)
    requires w <= |log| && m == |log| - w && m <= |log| - 1 && Flat(before) == log[..|log| - 1][..m]
    ensures Flat(before + [LastW(log, w, pad)]) == log
  {
    ShowsTail(log, w, pad);
    hide LastW;
    assert (before + [LastW(log, w, pad)])[..|before|] == before;
    assert log[..|log| - 1][..m] == log[..m] && log[..m] + log[m..] == log;
  }

  lemma NextWindow(n: nat, w: nat)
    requires w > 0 && n > 0
    ensures if n % w == 0
            then Covered(n, w) == n >= w && FullWindows(n, w) == FullWindows(n - 1, w) + 1 && Covered(n - 1, w) == n - w
            else Covered(n, w) == Covered(n - 1, w) && FullWindows(n, w) == FullWindows(n - 1, w)
  {
    Quotients(n, w, n / w, n % w);
  }

  lemma Quotients(n: nat, w: nat, q: nat, r: nat)
    requires w > 0 && n > 0 && n == w * q + r && r < w
    ensures n / w == q && q * w == n - r && (r == 0 ==> q > 0)
    ensures (n - 1) / w == (if r == 0 then q - 1 else q) && (r == 0 ==> (q - 1) * w == n - w && n >= w)
  {
    Arith.DivModUnique(n, w, q, r);
    Commuted(w, q);
    if r == 0 {
      NotZero(n, w, q);
      Arith.DivModUnique(n - 1, w, q - 1, w - 1);
      Arith.MulMono(1, q, w);
    } else {
      Arith.DivModUnique(n - 1, w, q, r - 1);
    }
  }

  lemma Commuted(w: nat, q: nat)
    ensures w * q == q * w && w * (q - 1) == w * q - w && (q - 1) * w == w * q - w
  {
  }

  lemma NotZero(n: nat, w: nat, q: nat)
    requires n > 0 && n == w * q
    ensures q > 0
  {
  }

  ghost predicate DistinctIds(sids: seq<int>) {
    forall i, j :: 0 <= i < j < |sids| ==> sids[i] != sids[j]
  }

  /** Every id listed before a due one has a row. */
  ghost predicate NoGapBeforeDue(sids: seq<int>, rowOf: map<int, nat>, steps: seq<nat>, w: nat)
    requires w > 0
  {
    forall i, j :: 0 <= i < j < |sids| && sids[j] in rowOf && AtBoundary(steps, rowOf[sids[j]], w) ==> sids[i] in rowOf
  }

  lemma PairedLonger(sids: seq<int>, more: seq<int>, rows: seq<nat>, steps: seq<nat>, w: nat)
    requires w > 0 && |rows| <= |sids|
    ensures Paired(sids + more, rows, steps, w) == Paired(sids, rows, steps, w)
  {
    if rows != [] {
      PairedLonger(sids, more, rows[..|rows| - 1], steps, w);
    }
  }

  lemma {:induction false} AllLent(sids: seq<int>, rowOf: map<int, nat>)
    ensures |LentRows(sids, rowOf)| == |sids| <==> forall i :: 0 <= i < |sids| ==> sids[i] in rowOf
  {
    if sids != [] {
      var front := sids[..|sids| - 1];
      AllLent(front, rowOf);
      assert forall i :: 0 <= i < |front| ==> front[i] == sids[i];
    }
  }

  /** What the last listed id adds to either test. */
  lemma LastListed(sids: seq<int>, rowOf: map<int, nat>, steps: seq<nat>, w: nat)
    requires w > 0 && sids != []
    ensures var front, sid := sids[..|sids| - 1], sids[|sids| - 1];
            var before := LentRows(front, rowOf);
            var due, paired := Due(front, rowOf, steps, w), Paired(front, before, steps, w);
            if sid in rowOf && AtBoundary(steps, rowOf[sid], w) then
              Due(sids, rowOf, steps, w) == due + [(sid, rowOf[sid])]
              && Paired(sids, LentRows(sids, rowOf), steps, w) == paired + [(sids[|before|], rowOf[sid])]
            else Due(sids, rowOf, steps, w) == due && Paired(sids, LentRows(sids, rowOf), steps, w) == paired
  {
    var k := |sids| - 1;
    var front, before, all := sids[..k], LentRows(sids[..k], rowOf), LentRows(sids, rowOf);
    PairedLonger(front, sids[k..], before, steps, w);
    assert front + sids[k..] == sids;
    if sids[k] in rowOf { assert all[..|all| - 1] == before; } else { assert all == before; }
  }

  lemma {:induction false} DueLength(sids: seq<int>, rowOf: map<int, nat>, steps: seq<nat>, w: nat)
    requires w > 0
    ensures |Paired(sids, LentRows(sids, rowOf), steps, w)| == |Due(sids, rowOf, steps, w)|
  {
    if sids != [] {
      DueLength(sids[..|sids| - 1], rowOf, steps, w);
      LastListed(sids, rowOf, steps, w);
    }
  }

  /** The device test reports the same proofs as the host test exactly when no id without a row
      is listed before a due one. */
  lemma {:induction false} DeviceAgrees(sids: seq<int>, rowOf: map<int, nat>, steps: seq<nat>, w: nat)
    requires w > 0 && DistinctIds(sids)
    ensures Paired(sids, LentRows(sids, rowOf), steps, w) == Due(sids, rowOf, steps, w) <==> NoGapBeforeDue(sids, rowOf, steps, w)
  {
    if sids == [] { return; }
    hide Paired, Due, LentRows, AtBoundary;
    var k := |sids| - 1;
    var front, before, row := sids[..k], LentRows(sids[..k], rowOf), if sids[k] in rowOf then rowOf[sids[k]] else 0;
    DeviceAgrees(front, rowOf, steps, w);
    DueLength(front, rowOf, steps, w);
    LastListed(sids, rowOf, steps, w);
    AllLent(front, rowOf);
    LentFew(front, rowOf);
    GapStep(sids, rowOf, steps, w);
    SameEnds(Paired(front, before, steps, w), (sids[|before|], row), Due(front, rowOf, steps, w), (sids[k], row));
  }

  lemma LentFew(sids: seq<int>, rowOf: map<int, nat>)
    ensures |LentRows(sids, rowOf)| <= |sids|
  {
  }

  lemma SameEnds<T>(xs: seq<T>, x: T, ys: seq<T>, y: T)
    requires |xs| == |ys|
    ensures xs + [x] == ys + [y] <==> xs == ys && x == y
  {
    if xs + [x] == ys + [y] {
      assert xs == (xs + [x])[..|xs|] && ys == (ys + [y])[..|ys|];
      assert (xs + [x])[|xs|] == (ys + [y])[|ys|];
    }
  }

  lemma GapStep(sids: seq<int>, rowOf: map<int, nat>, steps: seq<nat>, w: nat)
    requires w > 0 && sids != []
    ensures var k := |sids| - 1;
            NoGapBeforeDue(sids, rowOf, steps, w)
            <==> NoGapBeforeDue(sids[..k], rowOf, steps, w)
                 && (sids[k] in rowOf && AtBoundary(steps, rowOf[sids[k]], w) ==>
                       forall i :: 0 <= i < k ==> sids[..k][i] in rowOf)
  {
    var k := |sids| - 1;
    if NoGapBeforeDue(sids, rowOf, steps, w) {
      forall i, j | 0 <= i < j < k && sids[..k][j] in rowOf && AtBoundary(steps, rowOf[sids[..k][j]], w)
        ensures sids[..k][i] in rowOf
      {
        assert sids[i] in rowOf && sids[j] == sids[..k][j];
      }
    }
  }

  /** A sequence that just ended, listed before one on a boundary, gets the other's proof. */
  lemma DeviceMisattributes()
    ensures Due([7, 8], map[8 := 0], [4], 4) == [(8, 0)]
    ensures Paired([7, 8], LentRows([7, 8], map[8 := 0]), [4], 4) == [(7, 0)]
  {
    hide AtBoundary;
    FourSteps();
    assert [7, 8][..1] == [7] && [7][..0] == [] && [0 as nat][..0] == [];
    assert LentRows([7], map[8 := 0]) == [] && LentRows([7, 8], map[8 := 0]) == [0];
    assert Due([7], map[8 := 0], [4], 4) == [];
    assert Paired([7, 8], [], [4], 4) == [];
  }

  lemma FourSteps()
    ensures AtBoundary([4], 0, 4)
  {
  }
}
