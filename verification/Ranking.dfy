/** Top-k selection: a scan of the whole vocabulary, and the same selection read off the sorted
    prefix. */
module Ranking {
  import opened Floats

  // ---- ranked prefixes ----

  /** Descending by value, ties by ascending id. */
  ghost predicate Before<F(!new), D(!new)>(o: Ops<F, D>, v: F, i: nat, w: F, j: nat) {
    o.Less(w, v) || (v == w && i < j)
  }

  /** `ranked` is the beginning of the descending order of `working`. */
  ghost predicate IsRanking<F(!new), D(!new)>(o: Ops<F, D>, working: seq<F>, ranked: seq<(F, nat)>) {
    (forall r :: 0 <= r < |ranked| ==> ranked[r].1 < |working| && ranked[r].0 == working[ranked[r].1])
    && (forall r, t :: 0 <= r < t < |ranked| ==> Before(o, ranked[r].0, ranked[r].1, ranked[t].0, ranked[t].1))
    && (forall i, r :: 0 <= i < |working| && 0 <= r < |ranked| && !Ranked(ranked, i)
                       ==> Before(o, ranked[r].0, ranked[r].1, working[i], i))
  }

  ghost predicate Ranked<F>(ranked: seq<(F, nat)>, i: nat) {
    exists r :: 0 <= r < |ranked| && ranked[r].1 == i
  }

  // ---- what survives ----

  predicate Above<F(!new), D(!new)>(o: Ops<F, D>, working: seq<F>, kth: F, i: nat)
    requires i < |working|
  {
    o.Less(kth, working[i])
  }

  ghost predicate IsFirstMax<F(!new), D(!new)>(o: Ops<F, D>, working: seq<F>, a: nat) {
    a < |working|
    && (forall i :: 0 <= i < |working| ==> o.le(working[i], working[a]))
    && (forall i :: 0 <= i < a ==> working[i] != working[a])
  }

  /** Token `i` survives: it is strictly above the threshold or, when nothing is, it is the first maximum. */
  ghost predicate Survives<F(!new), D(!new)>(o: Ops<F, D>, working: seq<F>, kth: F, i: nat)
    requires i < |working|
  {
    Above(o, working, kth, i)
    || ((forall j :: 0 <= j < |working| ==> !Above(o, working, kth, j)) && IsFirstMax(o, working, i))
  }

  /** The outcome of a selection: flags, masked logits and the number of survivors. */
  datatype Selection<F> = Selection(keep: seq<bool>, logits: seq<F>, survivors: nat)

  /** Exactly the survivors are kept, with the value the temperature gives them. */
  ghost predicate Selects<F(!new), D(!new)>(o: Ops<F, D>, working: seq<F>, kth: F, scale: F -> F, divide: F -> F,
                                            s: Selection<F>) {
    |s.keep| == |s.logits| == |working|
    && (forall i :: 0 <= i < |working| ==> (s.keep[i] <==> Survives(o, working, kth, i)))
    && (forall i :: 0 <= i < |working| && !s.keep[i] ==> s.logits[i] == o.ninf)
    && (forall i :: 0 <= i < |working| && s.keep[i] ==>
          s.logits[i] == if Above(o, working, kth, i) then scale(working[i]) else divide(working[i]))
    && s.survivors == |KeptIds(s.keep, |s.keep|)|
  }

  /** The kept ids below `n`, ascending. */
  function KeptIds(keep: seq<bool>, n: nat): (ids: seq<nat>)
    requires n <= |keep|
    ensures forall j :: 0 <= j < |ids| ==> ids[j] < n && keep[ids[j]]
    ensures forall j, l :: 0 <= j < l < |ids| ==> ids[j] < ids[l]
    ensures forall i {:trigger i in ids} :: 0 <= i < n && keep[i] ==> i in ids
  {
    if n == 0 then [] else if keep[n - 1] then KeptIds(keep, n - 1) + [n - 1] else KeptIds(keep, n - 1)
  }

  lemma SelectionUnique<F(!new), D(!new)>(o: Ops<F, D>, working: seq<F>, kth: F, scale: F -> F, divide: F -> F,
                                          s: Selection<F>, t: Selection<F>)
    requires Selects(o, working, kth, scale, divide, s) && Selects(o, working, kth, scale, divide, t)
    ensures s == t
  {
    assert s.keep == t.keep;
    assert s.logits == t.logits;
  }

  // ---- the scan of the whole vocabulary ----

  method DenseSelect<F(!new, ==), D(!new)>(o: Ops<F, D>, working: seq<F>, kth: F, scale: F -> F, divide: F -> F)
    returns (s: Selection<F>)
    requires TotalOrder(o) && |working| > 0
    ensures Selects(o, working, kth, scale, divide, s)
  {
    hide Selects, IsFirstMax, TotalOrder, KeptIds;
    var n := |working|;
    var keep, logits, survivors := seq(n, _ => false), seq(n, i requires 0 <= i < n => scale(working[i])), 0;
    assert |KeptIds(keep, 0)| == 0 by { OneKept(keep, n, 0); }
    for i := 0 to n
      invariant |keep| == |logits| == n
      invariant forall j :: 0 <= j < n ==> (keep[j] <==> j < i && Above(o, working, kth, j))
      invariant forall j :: 0 <= j < n ==> logits[j] == if j >= i || keep[j] then scale(working[j]) else o.ninf
      invariant survivors == |KeptIds(keep, i)|
    {
      ghost var before := keep;
      if o.Less(kth, working[i]) {
        keep := keep[i := true];
        survivors := survivors + 1;
      } else {
        logits := logits[i := o.ninf];
      }
      KeptNext(before, keep, i);
    }
    if survivors == 0 {
      NothingKept(keep, n);
      var argmax, best := 0, working[0];
      Order(o, best, best, best);
      for i := 1 to n
        invariant 0 <= argmax < i && best == working[argmax]
        invariant forall j :: 0 <= j < i ==> o.le(working[j], best)
        invariant forall j :: 0 <= j < argmax ==> working[j] != best
      {
        StillBest(o, working, best, i);
        if o.Less(best, working[i]) || (working[i] == best && i < argmax) {
          best, argmax := working[i], i;
        }
      }
      IsMaximum(o, working, argmax);
      keep := keep[argmax := true];
      logits := logits[argmax := divide(working[argmax])];
      survivors := 1;
      OneKept(keep, argmax, n);
      s := Selection(keep, logits, survivors);
      FallbackSelects(o, working, kth, scale, divide, s, argmax);
    } else {
      SomethingKept(keep, n);
      s := Selection(keep, logits, survivors);
      ScanSelects(o, working, kth, scale, divide, s);
    }
  }

  lemma IsMaximum<F(!new), D(!new)>(o: Ops<F, D>, working: seq<F>, a: nat)
    requires a < |working| && (forall i :: 0 <= i < |working| ==> o.le(working[i], working[a]))
    requires forall i :: 0 <= i < a ==> working[i] != working[a]
    ensures IsFirstMax(o, working, a)
  {
  }

  /** With a token above the threshold, keeping those above it selects. */
  lemma ScanSelects<F(!new), D(!new)>(o: Ops<F, D>, working: seq<F>, kth: F, scale: F -> F, divide: F -> F, s: Selection<F>)
    requires |s.keep| == |s.logits| == |working| && s.survivors == |KeptIds(s.keep, |working|)|
    requires forall i :: 0 <= i < |working| ==> (s.keep[i] <==> Above(o, working, kth, i))
    requires forall i :: 0 <= i < |working| ==> s.logits[i] == if s.keep[i] then scale(working[i]) else o.ninf
    requires exists i :: 0 <= i < |working| && s.keep[i]
    ensures Selects(o, working, kth, scale, divide, s)
  {
    hide KeptIds;
  }

  /** With none, keeping the first maximum alone does. */
  lemma FallbackSelects<F(!new), D(!new)>(o: Ops<F, D>, working: seq<F>, kth: F, scale: F -> F, divide: F -> F,
                                          s: Selection<F>, argmax: nat)
    requires TotalOrder(o) && |s.keep| == |s.logits| == |working| && s.survivors == |KeptIds(s.keep, |working|)|
    requires IsFirstMax(o, working, argmax) && forall i :: 0 <= i < |working| ==> !Above(o, working, kth, i)
    requires forall i :: 0 <= i < |working| ==> (s.keep[i] <==> i == argmax)
    requires forall i :: 0 <= i < |working| ==> s.logits[i] == if s.keep[i] then divide(working[i]) else o.ninf
    ensures Selects(o, working, kth, scale, divide, s)
  {
    hide KeptIds, IsFirstMax, TotalOrder;
    FirstMaxUnique(o, working, argmax);
  }

  lemma KeptNext(a: seq<bool>, b: seq<bool>, n: nat)
    requires n < |a| == |b| && a[..n] == b[..n]
    ensures |KeptIds(b, n + 1)| == |KeptIds(a, n)| + if b[n] then 1 else 0
  {
    KeptAgree(a, b, n);
  }

  lemma StillBest<F(!new), D(!new)>(o: Ops<F, D>, working: seq<F>, best: F, i: nat)
    requires TotalOrder(o) && i < |working| && forall j :: 0 <= j < i ==> o.le(working[j], best)
    ensures forall j :: 0 <= j <= i ==> o.le(working[j], if o.Less(best, working[i]) then working[i] else best)
  {
    forall j | 0 <= j <= i
      ensures o.le(working[j], if o.Less(best, working[i]) then working[i] else best)
    {
      Order(o, working[j], best, working[i]);
      Order(o, working[i], best, working[i]);
    }
  }

  lemma {:induction false} KeptAgree(a: seq<bool>, b: seq<bool>, n: nat)
    requires n <= |a| == |b| && a[..n] == b[..n]
    ensures KeptIds(a, n) == KeptIds(b, n)
  {
    if n > 0 {
      assert a[n - 1] == a[..n][n - 1] == b[..n][n - 1] == b[n - 1];
      assert a[..n - 1] == a[..n][..n - 1] == b[..n][..n - 1] == b[..n - 1];
      KeptAgree(a, b, n - 1);
    }
  }

  lemma NothingKept(keep: seq<bool>, n: nat)
    requires n <= |keep| && |KeptIds(keep, n)| == 0
    ensures forall i :: 0 <= i < n ==> !keep[i]
  {
  }

  lemma SomethingKept(keep: seq<bool>, n: nat)
    requires n <= |keep| && |KeptIds(keep, n)| > 0
    ensures exists i :: 0 <= i < n && keep[i]
  {
    var i := KeptIds(keep, n)[0];
    assert keep[i];
  }

  lemma {:induction false} OneKept(keep: seq<bool>, a: nat, n: nat)
    requires n <= |keep| && forall i :: 0 <= i < n ==> (keep[i] <==> i == a)
    ensures KeptIds(keep, n) == if a < n then [a] else []
  {
    if n > 0 { OneKept(keep, a, n - 1); }
  }

  lemma FirstMaxUnique<F(!new), D(!new)>(o: Ops<F, D>, working: seq<F>, a: nat)
    requires TotalOrder(o) && IsFirstMax(o, working, a)
    ensures forall b :: 0 <= b < |working| ==> (IsFirstMax(o, working, b) <==> b == a)
  {
    forall b | 0 <= b < |working| && IsFirstMax(o, working, b)
      ensures b == a
    {
      assert o.le(working[a], working[b]) && o.le(working[b], working[a]);
    }
  }

  // ---- the same selection from the sorted prefix ----

  ghost predicate Ascending(ids: seq<nat>) {
    forall j, l :: 0 <= j < l < |ids| ==> ids[j] < ids[l]
  }

  ghost function Elements(a: seq<nat>): set<nat> { set i | i in a }

  lemma ButLast(a: seq<nat>)
    requires Ascending(a) && a != []
    ensures Ascending(a[..|a| - 1]) && a[|a| - 1] in Elements(a)
    ensures Elements(a[..|a| - 1]) == Elements(a) - {a[|a| - 1]}
    ensures forall i :: i in Elements(a) ==> i <= a[|a| - 1]
  {
    var k := |a| - 1;
    forall i | i in Elements(a) - {a[k]}
      ensures i in Elements(a[..k])
    {
      var j :| 0 <= j < |a| && a[j] == i;
      assert a[..k][j] == i;
    }
  }

  lemma SomeElement(a: seq<nat>)
    requires a != []
    ensures Elements(a) != {}
  {
    assert a[0] in Elements(a);
  }

  lemma {:induction false} SameAscending(a: seq<nat>, b: seq<nat>)
    requires Ascending(a) && Ascending(b) && Elements(a) == Elements(b)
    ensures a == b
  {
    if a == [] {
      if b != [] { SomeElement(b); }
    } else if b == [] {
      SomeElement(a);
    } else {
      var k, l := |a| - 1, |b| - 1;
      ButLast(a);
      ButLast(b);
      SameAscending(a[..k], b[..l]);
      assert a == a[..k] + [a[k]] && b == b[..l] + [b[l]];
    }
  }

  lemma AscendingIsKept(ids: seq<nat>, keep: seq<bool>, n: nat)
    requires n <= |keep| && Ascending(ids)
    requires forall i :: i in ids <==> 0 <= i < n && keep[i]
    ensures ids == KeptIds(keep, n)
  {
    assert Elements(ids) == Elements(KeptIds(keep, n));
    SameAscending(ids, KeptIds(keep, n));
  }

  ghost predicate DistinctIds<F>(s: seq<(nat, F)>) {
    forall j, l :: 0 <= j < l < |s| ==> s[j].0 != s[l].0
  }

  ghost predicate AscendingIds<F>(s: seq<(nat, F)>) {
    forall j, l :: 0 <= j < l < |s| ==> s[j].0 < s[l].0
  }

  /** Ids with their values, in ascending id order (the source sorts pairs; the ids are distinct). */
  function SortById<F>(s: seq<(nat, F)>): seq<(nat, F)> {
    if s == [] then [] else Insert(SortById(s[..|s| - 1]), s[|s| - 1])
  }

  function Insert<F>(s: seq<(nat, F)>, x: (nat, F)): seq<(nat, F)> {
    if s == [] || s[|s| - 1].0 < x.0 then s + [x] else Insert(s[..|s| - 1], x) + [s[|s| - 1]]
  }

  lemma {:induction false} SortIs<F(!new)>(s: seq<(nat, F)>)
    requires DistinctIds(s)
    ensures |SortById(s)| == |s| && AscendingIds(SortById(s)) && forall x :: x in SortById(s) <==> x in s
  {
    if s != [] {
      SortIs(s[..|s| - 1]);
      InsertIs(SortById(s[..|s| - 1]), s[|s| - 1]);
    }
  }

  lemma {:induction false} InsertIs<F(!new)>(s: seq<(nat, F)>, x: (nat, F))
    requires AscendingIds(s) && forall y :: y in s ==> y.0 != x.0
    ensures |Insert(s, x)| == |s| + 1 && AscendingIds(Insert(s, x))
    ensures forall y :: y in Insert(s, x) <==> y in s || y == x
  {
    if s != [] && s[|s| - 1].0 >= x.0 {
      var t := Insert(s[..|s| - 1], x);
      InsertIs(s[..|s| - 1], x);
      assert forall y :: y in s <==> y in s[..|s| - 1] || y == s[|s| - 1];
      assert forall y :: y in t ==> y.0 < s[|s| - 1].0;
    }
  }

  /** Being strictly above the value at rank `kpos` is being ranked before the first tie. */
  lemma PrefixIsAbove<F(!new), D(!new)>(o: Ops<F, D>, working: seq<F>, ranked: seq<(F, nat)>, kpos: nat, m: nat, i: nat)
    requires TotalOrder(o) && IsRanking(o, working, ranked) && m <= kpos < |ranked| && i < |working|
    requires forall r :: 0 <= r < m ==> o.Less(ranked[kpos].0, ranked[r].0)
    requires m < kpos ==> !o.Less(ranked[kpos].0, ranked[m].0)
    ensures Above(o, working, ranked[kpos].0, i) <==> exists r :: 0 <= r < m && ranked[r].1 == i
  {
    if Above(o, working, ranked[kpos].0, i) {
      UnrankedIsBelow(o, working, ranked, kpos, i);
      var r :| 0 <= r < |ranked| && ranked[r].1 == i;
      if r >= m { RanksDescend(o, working, ranked, m, r); }
    }
  }

  lemma UnrankedIsBelow<F(!new), D(!new)>(o: Ops<F, D>, working: seq<F>, ranked: seq<(F, nat)>, r: nat, i: nat)
    requires TotalOrder(o) && IsRanking(o, working, ranked) && r < |ranked| && i < |working|
    ensures Ranked(ranked, i) || o.le(working[i], ranked[r].0)
  {
    assert Ranked(ranked, i) || Before(o, ranked[r].0, ranked[r].1, working[i], i);
  }

  lemma RanksDescend<F(!new), D(!new)>(o: Ops<F, D>, working: seq<F>, ranked: seq<(F, nat)>, r: nat, t: nat)
    requires TotalOrder(o) && IsRanking(o, working, ranked) && r <= t < |ranked|
    ensures o.le(ranked[t].0, ranked[r].0)
  {
    assert r == t || Before(o, ranked[r].0, ranked[r].1, ranked[t].0, ranked[t].1);
  }

  /** Rank 0 is the first maximum. */
  lemma RankZeroIsFirstMax<F(!new), D(!new)>(o: Ops<F, D>, working: seq<F>, ranked: seq<(F, nat)>)
    requires TotalOrder(o) && IsRanking(o, working, ranked) && |ranked| > 0
    ensures IsFirstMax(o, working, ranked[0].1) && ranked[0].0 == working[ranked[0].1]
  {
    var a := ranked[0].1;
    forall i | 0 <= i < |working|
      ensures i == a || Before(o, working[a], a, working[i], i)
    {
      if Ranked(ranked, i) { var r :| 0 <= r < |ranked| && ranked[r].1 == i; }
    }
  }

  function Ids<F>(s: seq<(nat, F)>): (ids: seq<nat>)
    ensures |ids| == |s| && forall j :: 0 <= j < |s| ==> ids[j] == s[j].0
  {
    seq(|s|, j requires 0 <= j < |s| => s[j].0)
  }

  /** Fills the dense buffers from the survivors alone. */
  method Scatter<F(!new), D(!new)>(o: Ops<F, D>, n: nat, survivors: seq<(nat, F)>, scale: F -> F)
    returns (keep: seq<bool>, logits: seq<F>)
    requires AscendingIds(survivors) && forall j :: 0 <= j < |survivors| ==> survivors[j].0 < n
    ensures |keep| == |logits| == n
    ensures forall i :: 0 <= i < n ==> (keep[i] <==> i in Ids(survivors))
    ensures forall i :: 0 <= i < n && !keep[i] ==> logits[i] == o.ninf
    ensures forall j :: 0 <= j < |survivors| ==> logits[survivors[j].0] == scale(survivors[j].1)
  {
    keep, logits := seq(n, _ => false), seq(n, _ => o.ninf);
    ghost var ids := Ids(survivors);
    for j := 0 to |survivors|
      invariant |keep| == |logits| == n
      invariant forall i :: 0 <= i < n ==> (keep[i] <==> i in ids[..j])
      invariant forall i :: 0 <= i < n && !keep[i] ==> logits[i] == o.ninf
      invariant forall l :: 0 <= l < j ==> logits[survivors[l].0] == scale(survivors[l].1)
    {
      keep := keep[survivors[j].0 := true];
      logits := logits[survivors[j].0 := scale(survivors[j].1)];
      assert ids[..j + 1] == ids[..j] + [survivors[j].0];
    }
    assert ids[..|survivors|] == ids;
  }

  /** The ids and values of the ranks strictly above the value at rank `kpos`, in rank order. */
  method CollectPrefix<F(!new, ==), D(!new)>(o: Ops<F, D>, ranked: seq<(F, nat)>, kpos: nat, ghost working: seq<F>)
    returns (iv: seq<(nat, F)>)
    requires TotalOrder(o) && IsRanking(o, working, ranked) && kpos < |ranked|
    ensures |iv| <= kpos && DistinctIds(iv)
    ensures forall t :: 0 <= t < |iv| ==> iv[t].0 < |working| && iv[t].1 == working[iv[t].0]
    ensures forall i :: 0 <= i < |working| ==> (Above(o, working, ranked[kpos].0, i) <==> i in Ids(iv))
  {
    var kth := ranked[kpos].0;
    iv := [];
    for r := 0 to kpos
      invariant |iv| == r && forall t :: 0 <= t < r ==> iv[t] == (ranked[t].1, ranked[t].0)
      invariant forall t :: 0 <= t < r ==> o.Less(kth, ranked[t].0)
    {
      if !o.Less(kth, ranked[r].0) { break; }
      iv := iv + [(ranked[r].1, ranked[r].0)];
    }
    forall i | 0 <= i < |working|
      ensures Above(o, working, kth, i) <==> i in Ids(iv)
    {
      PrefixIsAbove(o, working, ranked, kpos, |iv|, i);
      assert forall t :: 0 <= t < |iv| ==> Ids(iv)[t] == ranked[t].1;
    }
    RanksDistinct(o, working, ranked);
  }

  lemma RanksDistinct<F(!new), D(!new)>(o: Ops<F, D>, working: seq<F>, ranked: seq<(F, nat)>)
    requires TotalOrder(o) && IsRanking(o, working, ranked)
    ensures forall r, t :: 0 <= r < t < |ranked| ==> ranked[r].1 != ranked[t].1
  {
    forall r, t | 0 <= r < t < |ranked|
      ensures ranked[r].1 != ranked[t].1
    {
      assert Before(o, ranked[r].0, ranked[r].1, ranked[t].0, ranked[t].1);
    }
  }

  /** Selects from at most `kpos` ranks, in a vocabulary of `n` tokens. */
  method PrefixSelect<F(!new, ==), D(!new)>(o: Ops<F, D>, n: nat, ranked: seq<(F, nat)>, kpos: nat,
                                            scale: F -> F, divide: F -> F, ghost working: seq<F>)
    returns (s: Selection<F>, survIds: seq<nat>)
    requires TotalOrder(o) && |working| == n && IsRanking(o, working, ranked) && kpos < |ranked|
    ensures Selects(o, working, ranked[kpos].0, scale, divide, s)
    ensures survIds == KeptIds(s.keep, n)
  {
    var iv := CollectPrefix(o, ranked, kpos, working);
    var sorted := SortById(iv);
    SortIs(iv);
    SortedFrom(iv, sorted, working);
    survIds := Ids(sorted);
    var keep, logits := Scatter(o, n, sorted, scale);
    var survivors := |survIds|;
    if survivors == 0 {
      var argmax, best := ranked[0].1, ranked[0].0;
      RankZeroIsFirstMax(o, working, ranked);
      FirstMaxUnique(o, working, argmax);
      keep := keep[argmax := true];
      logits := logits[argmax := divide(best)];
      survivors := 1;
      survIds := [argmax];
      OneKept(keep, argmax, n);
    } else {
      assert survIds[0] in Ids(iv);
      AscendingIsKept(survIds, keep, n);
      KeptAreScaled(o, sorted, working, scale, keep, logits);
    }
    s := Selection(keep, logits, survivors);
  }

  lemma KeptAreScaled<F(!new), D(!new)>(o: Ops<F, D>, s: seq<(nat, F)>, working: seq<F>, scale: F -> F,
                                        keep: seq<bool>, logits: seq<F>)
    requires |keep| == |logits| == |working|
    requires forall j :: 0 <= j < |s| ==> s[j].0 < |working| && s[j].1 == working[s[j].0]
    requires forall j :: 0 <= j < |s| ==> logits[s[j].0] == scale(s[j].1)
    requires forall i :: 0 <= i < |keep| ==> (keep[i] <==> i in Ids(s))
    ensures forall i :: 0 <= i < |keep| && keep[i] ==> logits[i] == scale(working[i])
  {
    forall i | 0 <= i < |keep| && keep[i]
      ensures logits[i] == scale(working[i])
    {
      var j :| 0 <= j < |s| && Ids(s)[j] == i;
    }
  }

  /** Sorting keeps the ids, and with each its value. */
  lemma SortedFrom<F(!new)>(s: seq<(nat, F)>, r: seq<(nat, F)>, working: seq<F>)
    requires DistinctIds(s) && r == SortById(s)
    requires forall t :: 0 <= t < |s| ==> s[t].0 < |working| && s[t].1 == working[s[t].0]
    ensures forall j :: 0 <= j < |r| ==> r[j].0 < |working| && r[j].1 == working[r[j].0]
    ensures forall i :: i in Ids(r) <==> i in Ids(s)
  {
    forall j | 0 <= j < |r|
      ensures r[j].0 < |working| && r[j].1 == working[r[j].0]
    {
      SortedMember(s, j);
      var t :| 0 <= t < |s| && s[t] == r[j];
    }
    SortedIds(s);
  }

  lemma SortedMember<F(!new)>(s: seq<(nat, F)>, j: nat)
    requires DistinctIds(s) && j < |SortById(s)|
    ensures SortById(s)[j] in s
  {
    SortIs(s);
  }

  lemma SortedIds<F(!new)>(s: seq<(nat, F)>)
    requires DistinctIds(s)
    ensures forall i :: i in Ids(SortById(s)) <==> i in Ids(s)
  {
    var r := SortById(s);
    SortIs(s);
    forall i | i in Ids(r)
      ensures i in Ids(s)
    {
      var j :| 0 <= j < |r| && Ids(r)[j] == i;
      assert r[j] in s;
      var l :| 0 <= l < |s| && s[l] == r[j];
      assert Ids(s)[l] == i;
    }
    forall i | i in Ids(s)
      ensures i in Ids(r)
    {
      var j :| 0 <= j < |s| && Ids(s)[j] == i;
      assert s[j] in r;
      var l :| 0 <= l < |r| && r[l] == s[j];
      assert Ids(r)[l] == i;
    }
  }
}
