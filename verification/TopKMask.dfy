/** The batched top-k mask of the vLLM sampler: threshold from a capped top-k against the legacy
    full sort, mask and scatter-back, for one row of logits. */
module TopKMask {
  import opened Floats
  import Ranking

  const CAP: nat := 50

  function Min(x: nat, y: nat): nat { if x < y then x else y }

  ghost predicate Distinct(s: seq<nat>) { forall i, j :: 0 <= i < j < |s| ==> s[i] != s[j] }

  /** What `sort(descending=False)` returns: all values ascending, ties in any order. */
  ghost predicate IsSort<F, D>(o: Ops<F, D>, row: seq<F>, vals: seq<F>, idx: seq<nat>) {
    |vals| == |idx| == |row| && Distinct(idx)
    && (forall j :: 0 <= j < |idx| ==> idx[j] < |row| && vals[j] == row[idx[j]])
    && (forall i, j :: 0 <= i <= j < |vals| ==> o.le(vals[i], vals[j]))
  }

  /** What `topk(cap)` returns: the `cap` largest values descending, ties in any order. */
  ghost predicate IsTopK<F, D>(o: Ops<F, D>, row: seq<F>, cap: nat, vals: seq<F>, idx: seq<nat>) {
    |vals| == |idx| == cap <= |row| && Distinct(idx)
    && (forall j :: 0 <= j < cap ==> idx[j] < |row| && vals[j] == row[idx[j]])
    && (forall i, j :: 0 <= i <= j < cap ==> o.le(vals[j], vals[i]))
    && (forall i, j :: 0 <= i < |row| && i !in idx && 0 <= j < cap ==> o.le(row[i], vals[j]))
  }

  /** Masks every logit at or below the threshold. */
  function MaskBelow<F, D>(o: Ops<F, D>, row: seq<F>, threshold: F): (r: seq<F>)
    ensures |r| == |row|
  {
    seq(|row|, i requires 0 <= i < |row| => if o.le(row[i], threshold) then o.ninf else row[i])
  }

  /** The k-th largest slot, clamped to the cap, of the top values. */
  function FastMask<F, D>(o: Ops<F, D>, row: seq<F>, k: nat, topVals: seq<F>): seq<F>
    requires 0 < |topVals| == Min(CAP, |row|)
  {
    var slot := if k == 0 then 0 else Min(k - 1, |topVals| - 1);
    MaskBelow(o, row, topVals[slot])
  }

  /** Masks the sorted row and scatters it back through the sort's indices. */
  method LegacyMask<F(!new), D(!new)>(o: Ops<F, D>, row: seq<F>, k: nat, vals: seq<F>, idx: seq<nat>) returns (masked: seq<F>)
    requires 1 <= k <= |row| && IsSort(o, row, vals, idx)
    ensures masked == MaskBelow(o, row, vals[|row| - k])
  {
    var kth := vals[|row| - k];
    var sorted := MaskBelow(o, vals, kth);
    masked := row;
    for j := 0 to |idx|
      invariant |masked| == |row|
      invariant forall l :: 0 <= l < j ==> masked[idx[l]] == sorted[l]
    {
      masked := masked[idx[j] := sorted[j]];
    }
    CoversAll(idx, |row|);
    forall i | 0 <= i < |row|
      ensures masked[i] == MaskBelow(o, row, kth)[i]
    {
      assert i in idx;
      var l :| 0 <= l < |idx| && idx[l] == i;
    }
  }

  /** Restores the first maximum when the mask left nothing. */
  function WithFallback<F(==), D>(o: Ops<F, D>, row: seq<F>, masked: seq<F>, argmax: nat): seq<F>
    requires |masked| == |row| && argmax < |row|
  {
    if forall i :: 0 <= i < |masked| ==> masked[i] == o.ninf then masked[argmax := row[argmax]] else masked
  }

  // ---- counting ----

  ghost function AtLeast<F, D>(o: Ops<F, D>, row: seq<F>, v: F): set<nat> {
    set i: nat | i < |row| && o.le(v, row[i])
  }

  ghost function Above<F, D>(o: Ops<F, D>, row: seq<F>, v: F): set<nat> {
    set i: nat | i < |row| && o.Less(v, row[i])
  }

  /** `v` is the k-th largest value of the row, counting ties. */
  ghost predicate IsKth<F, D>(o: Ops<F, D>, row: seq<F>, k: nat, v: F) {
    |Above(o, row, v)| < k <= |AtLeast(o, row, v)|
  }

  lemma SubsetSize(a: set<nat>, b: set<nat>)
    requires a <= b
    ensures |a| <= |b|
  {
    assert b == a + (b - a);
  }

  lemma FewerAbove<F(!new), D(!new)>(o: Ops<F, D>, row: seq<F>, v: F, w: F)
    requires TotalOrder(o) && o.Less(w, v)
    ensures |AtLeast(o, row, v)| <= |Above(o, row, w)|
  {
    forall i | i in AtLeast(o, row, v)
      ensures i in Above(o, row, w)
    {
      Order(o, v, row[i], w);
    }
    SubsetSize(AtLeast(o, row, v), Above(o, row, w));
  }

  lemma KthUnique<F(!new), D(!new)>(o: Ops<F, D>, row: seq<F>, k: nat, v: F, w: F)
    requires TotalOrder(o) && IsKth(o, row, k, v) && IsKth(o, row, k, w)
    ensures v == w
  {
    if o.Less(v, w) { FewerAbove(o, row, w, v); }
    if o.Less(w, v) { FewerAbove(o, row, v, w); }
  }

  ghost function Image(s: seq<nat>): set<nat> { set i | i in s }

  lemma {:induction false} ImageSize(s: seq<nat>)
    requires Distinct(s)
    ensures |Image(s)| == |s|
  {
    if s != [] {
      var k := |s| - 1;
      ImageSize(s[..k]);
      assert Image(s) == Image(s[..k]) + {s[k]};
    } else {
      assert Image(s) == {};
    }
  }

  ghost function Range(n: nat): (r: set<nat>)
    ensures |r| == n && forall i: nat :: i in r <==> i < n
  {
    if n == 0 then {} else Range(n - 1) + {n - 1}
  }

  /** `n` distinct indices below `n` are all of them. */
  lemma CoversAll(idx: seq<nat>, n: nat)
    requires Distinct(idx) && |idx| == n && forall j :: 0 <= j < n ==> idx[j] < n
    ensures forall i :: 0 <= i < n ==> i in idx
  {
    ImageSize(idx);
    var rest := Range(n) - Image(idx);
    assert Image(idx) <= Range(n);
    assert |rest| == |Range(n)| - |Image(idx)| == 0;
    forall i | 0 <= i < n ensures i in idx { assert i in Range(n) && i !in rest; }
  }

  lemma TopSlotIsKth<F(!new), D(!new)>(o: Ops<F, D>, row: seq<F>, cap: nat, vals: seq<F>, idx: seq<nat>, k: nat)
    requires TotalOrder(o) && IsTopK(o, row, cap, vals, idx) && 1 <= k <= cap
    ensures IsKth(o, row, k, vals[k - 1])
  {
    var v := vals[k - 1];
    ImageSize(idx[..k]);
    ImageSize(idx[..k - 1]);
    SubsetSize(Image(idx[..k]), AtLeast(o, row, v));
    forall i | i in Above(o, row, v)
      ensures i in Image(idx[..k - 1])
    {
      assert i in idx;
      var j :| 0 <= j < cap && idx[j] == i;
      assert j < k - 1;
      assert idx[..k - 1][j] == i;
    }
    SubsetSize(Above(o, row, v), Image(idx[..k - 1]));
  }

  lemma SortSlotIsKth<F(!new), D(!new)>(o: Ops<F, D>, row: seq<F>, vals: seq<F>, idx: seq<nat>, k: nat)
    requires TotalOrder(o) && IsSort(o, row, vals, idx) && 1 <= k <= |row|
    ensures IsKth(o, row, k, vals[|row| - k])
  {
    var p := |row| - k;
    var v := vals[p];
    ImageSize(idx[p..]);
    ImageSize(idx[p + 1..]);
    SubsetSize(Image(idx[p..]), AtLeast(o, row, v));
    CoversAll(idx, |row|);
    forall i | i in Above(o, row, v)
      ensures i in Image(idx[p + 1..])
    {
      assert i in idx;
      var j :| 0 <= j < |row| && idx[j] == i;
      assert j > p;
      assert idx[p + 1..][j - p - 1] == i;
    }
    SubsetSize(Above(o, row, v), Image(idx[p + 1..]));
  }

  // ---- what the two masks have in common ----

  /** Up to the cap the masks are the same tensor, however the two sorts break ties. Beyond it they
      are the same exactly when the k-th largest value ties with the cap-th. */
  lemma MasksAgree<F(!new), D(!new)>(o: Ops<F, D>, row: seq<F>, k: nat, vals: seq<F>, idx: seq<nat>,
                                     topVals: seq<F>, topIdx: seq<nat>, argmax: nat)
    requires TotalOrder(o) && 1 <= k <= |row| && Ranking.IsFirstMax(o, row, argmax)
    requires IsSort(o, row, vals, idx) && IsTopK(o, row, Min(CAP, |row|), topVals, topIdx)
    ensures WithFallback(o, row, FastMask(o, row, k, topVals), argmax)
            == WithFallback(o, row, MaskBelow(o, row, vals[|row| - k]), argmax)
            <==> k <= CAP || vals[|row| - k] == topVals[CAP - 1]
  {
    SortSlotIsKth(o, row, vals, idx, k);
    if k <= CAP {
      TopSlotIsKth(o, row, Min(CAP, |row|), topVals, topIdx, k);
      KthUnique(o, row, k, vals[|row| - k], topVals[k - 1]);
    } else {
      CapSlotIsHigher(o, row, k, vals, idx, topVals, topIdx);
      if vals[|row| - k] != topVals[CAP - 1] {
        HigherThresholdDiffers(o, row, vals[|row| - k], topVals[CAP - 1], topIdx, argmax);
      }
    }
  }

  lemma CapSlotIsHigher<F(!new), D(!new)>(o: Ops<F, D>, row: seq<F>, k: nat, vals: seq<F>, idx: seq<nat>,
                                          topVals: seq<F>, topIdx: seq<nat>)
    requires TotalOrder(o) && CAP < k <= |row| && IsSort(o, row, vals, idx) && IsTopK(o, row, CAP, topVals, topIdx)
    ensures o.le(vals[|row| - k], topVals[CAP - 1])
  {
    SortSlotIsKth(o, row, vals, idx, CAP);
    TopSlotIsKth(o, row, CAP, topVals, topIdx, CAP);
    KthUnique(o, row, CAP, vals[|row| - CAP], topVals[CAP - 1]);
    assert o.le(vals[|row| - k], vals[|row| - CAP]);
  }

  lemma HigherThresholdDiffers<F(!new), D(!new)>(o: Ops<F, D>, row: seq<F>, low: F, high: F, topIdx: seq<nat>, argmax: nat)
    requires TotalOrder(o) && o.Less(low, high) && argmax < |row|
    requires |topIdx| == CAP && Distinct(topIdx) && topIdx[CAP - 1] < |row| && row[topIdx[CAP - 1]] == high
    requires topIdx[0] < |row| && o.le(high, row[topIdx[0]])
    ensures WithFallback(o, row, MaskBelow(o, row, high), argmax) != WithFallback(o, row, MaskBelow(o, row, low), argmax)
  {
    var fast, legacy := MaskBelow(o, row, high), MaskBelow(o, row, low);
    var first, last := topIdx[0], topIdx[CAP - 1];
    assert topIdx[0] != topIdx[CAP - 1];
    assert legacy[last] == high != o.ninf;
    assert fast[last] == o.ninf;
    var i := if last == argmax && o.le(row[first], high) then first else last;
    assert WithFallback(o, row, legacy, argmax)[i] == row[i] != o.ninf;
    if forall j :: 0 <= j < |fast| ==> fast[j] == o.ninf {
      assert o.le(row[first], high) by { assert fast[first] == o.ninf; }
    }
  }

  /** Either the survivors are the values strictly above the k-th largest, at least one and at
      most k - 1 of them, unchanged; or nothing but the first maximum is left. */
  lemma AtMostKMinusOne<F(!new), D(!new)>(o: Ops<F, D>, row: seq<F>, k: nat, v: F, argmax: nat)
    requires TotalOrder(o) && IsKth(o, row, k, v) && Ranking.IsFirstMax(o, row, argmax)
    ensures var r := WithFallback(o, row, MaskBelow(o, row, v), argmax);
            (1 <= |Above(o, row, v)| <= k - 1
             && forall i :: 0 <= i < |row| ==> r[i] == if i in Above(o, row, v) then row[i] else o.ninf)
            || (Above(o, row, v) == {} && forall i :: 0 <= i < |row| ==> r[i] == if i == argmax then row[i] else o.ninf)
  {
    var masked := MaskBelow(o, row, v);
    if Above(o, row, v) == {} {
      forall i | 0 <= i < |row| ensures masked[i] == o.ninf { assert i !in Above(o, row, v); }
    } else {
      var i :| i in Above(o, row, v);
      assert masked[i] != o.ninf;
      SubsetSize({i}, Above(o, row, v));
    }
  }

  // ---- a row on which the masks differ ----

  function Ascending(n: nat): seq<nat> { seq(n, i => i + 1) }

  /** 51 different logits and k = 51: the legacy mask keeps 50 of them, the capped one 49. */
  lemma MasksDifferAt51(o: Ops<nat, nat>, idx: seq<nat>, topVals: seq<nat>, topIdx: seq<nat>)
    requires o.ninf == 0 && forall x, y :: o.le(x, y) <==> x <= y
    requires idx == seq(51, i => i) && topVals == seq(50, j requires 0 <= j < 50 => 51 - j)
             && topIdx == seq(50, j requires 0 <= j < 50 => 50 - j)
    ensures var row := Ascending(51);
            TotalOrder(o) && IsSort(o, row, row, idx) && IsTopK(o, row, 50, topVals, topIdx) && Ranking.IsFirstMax(o, row, 50)
            && WithFallback(o, row, FastMask(o, row, 51, topVals), 50) != WithFallback(o, row, MaskBelow(o, row, row[0]), 50)
  {
    var row := Ascending(51);
    forall i | 0 < i < 51
      ensures i in topIdx
    {
      assert topIdx[50 - i] == i;
    }
    MasksAgree(o, row, 51, row, idx, topVals, topIdx, 50);
  }
}
