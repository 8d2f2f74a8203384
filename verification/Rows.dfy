/** Rows of the proof buffers, lent to sequences and recycled in the order they were freed. */
module Rows {

  datatype Option<+T> = None | Some(value: T)

  ghost predicate Distinct(rows: seq<nat>) {
    forall i, j :: 0 <= i < j < |rows| ==> rows[i] != rows[j]
  }

  ghost predicate Lent(rowOf: map<int, nat>, r: nat) {
    exists a :: a in rowOf && rowOf[a] == r
  }

  /** Lent rows and free rows make up [0, max), each row in one place only. */
  ghost predicate Split(rowOf: map<int, nat>, free: seq<nat>, max: nat) {
    (forall a, b :: a in rowOf && b in rowOf && rowOf[a] == rowOf[b] ==> a == b)
    && Distinct(free)
    && (forall a :: a in rowOf ==> rowOf[a] < max && rowOf[a] !in free)
    && (forall i :: 0 <= i < |free| ==> free[i] < max)
    && (forall r: nat :: r < max ==> r in free || Lent(rowOf, r))
  }

  /** Live sequences have allocation numbers of their own; entries of dead ones may linger. */
  ghost predicate Ordered(rowOf: map<int, nat>, order: map<int, nat>, next: nat) {
    (forall a :: a in rowOf ==> a in order)
    && (forall a :: a in order ==> order[a] < next)
    && (forall a, b :: a in rowOf && b in rowOf && order[a] == order[b] ==> a == b)
  }

  function Range(n: nat): (r: seq<nat>)
    ensures |r| == n && forall i :: 0 <= i < n ==> r[i] == i
  {
    seq(n, i requires 0 <= i < n => i)
  }

  lemma FreshRows(max: nat)
    ensures Split(map[], Range(max), max)
  {
    forall r: nat | r < max
      ensures r in Range(max)
    {
      assert Range(max)[r] == r;
    }
  }

  function GetRow(rowOf: map<int, nat>, sid: int): Option<nat> {
    if sid in rowOf then Some(rowOf[sid]) else None
  }

  lemma Lend(rowOf: map<int, nat>, free: seq<nat>, max: nat, sid: int)
    requires Split(rowOf, free, max) && sid !in rowOf && free != []
    ensures Split(rowOf[sid := free[0]], free[1..], max)
  {
    var rowOf', free' := rowOf[sid := free[0]], free[1..];
    assert free == [free[0]] + free';
    assert forall i :: 0 <= i < |free'| ==> free'[i] == free[i + 1];
    forall r: nat | r < max
      ensures r in free' || Lent(rowOf', r)
    {
      if r in free && r != free[0] {
        var i :| 0 <= i < |free| && free[i] == r;
        assert free'[i - 1] == r;
      } else if r == free[0] {
        assert rowOf'[sid] == r;
      } else {
        var a :| a in rowOf && rowOf[a] == r;
        assert rowOf'[a] == r;
      }
    }
  }

  lemma TakeBack(rowOf: map<int, nat>, free: seq<nat>, max: nat, sid: int)
    requires Split(rowOf, free, max) && sid in rowOf
    ensures Split(rowOf - {sid}, free + [rowOf[sid]], max)
  {
    var rowOf', free' := rowOf - {sid}, free + [rowOf[sid]];
    forall r: nat | r < max
      ensures r in free' || Lent(rowOf', r)
    {
      if r !in free' {
        var a :| a in rowOf && rowOf[a] == r;
        assert free'[|free|] == rowOf[sid];
        assert rowOf'[a] == r;
      }
    }
  }

  lemma DistinctCount(free: seq<nat>, max: nat)
    requires Distinct(free) && forall i :: 0 <= i < |free| ==> free[i] < max
    requires forall r: nat :: r < max ==> r in free
    ensures |free| == max
  {
    var all := Range(max);
    DistinctSet(free);
    DistinctSet(all);
    forall r: nat
      ensures r in free <==> r in all
    {
      if r < max { assert all[r] == r; }
    }
    assert (set r: nat | r in free) == (set r: nat | r in all);
  }

  lemma {:induction false} DistinctSet(rows: seq<nat>)
    requires Distinct(rows)
    ensures |set r: nat | r in rows| == |rows|
  {
    if rows != [] {
      var front, r := rows[..|rows| - 1], rows[|rows| - 1];
      DistinctSet(front);
      assert rows == front + [r];
      assert (set x: nat | x in rows) == (set x: nat | x in front) + {r};
      assert r !in front;
    }
  }

  /** Every row is lent once or free once. */
  lemma {:induction false} SplitCount(rowOf: map<int, nat>, free: seq<nat>, max: nat)
    requires Split(rowOf, free, max)
    ensures |rowOf.Keys| + |free| == max
    decreases |rowOf.Keys|
  {
    if rowOf == map[] {
      forall r: nat | r < max
        ensures r in free
      {
        assert r in free || Lent(rowOf, r);
      }
      DistinctCount(free, max);
    } else {
      assert rowOf.Keys != {};
      HasElement(rowOf.Keys);
      var a :| a in rowOf.Keys;
      TakeBack(rowOf, free, max, a);
      assert (rowOf - {a}).Keys == rowOf.Keys - {a};
      SplitCount(rowOf - {a}, free + [rowOf[a]], max);
    }
  }

  /** `a` has more steps than `b`, or as many and was allocated earlier. */
  predicate Older(rowOf: map<int, nat>, order: map<int, nat>, steps: seq<nat>, a: int, b: int)
    requires a in rowOf && b in rowOf && a in order && b in order && rowOf[a] < |steps| && rowOf[b] < |steps|
  {
    steps[rowOf[a]] > steps[rowOf[b]] || (steps[rowOf[a]] == steps[rowOf[b]] && order[a] < order[b])
  }

  /** `top` is older than every other sequence of `seen`. */
  ghost predicate Oldest(rowOf: map<int, nat>, order: map<int, nat>, steps: seq<nat>, top: int, seen: set<int>) {
    top in seen && (forall a :: a in seen ==> a in rowOf && a in order && rowOf[a] < |steps|)
    && forall a :: a in seen && a != top ==> Older(rowOf, order, steps, top, a)
  }

  lemma OldestStep(rowOf: map<int, nat>, free: seq<nat>, order: map<int, nat>, next: nat, steps: seq<nat>, top: int,
                   seen: set<int>, a: int)
    requires Split(rowOf, free, |steps|) && Ordered(rowOf, order, next) && a in rowOf && a !in seen
    requires Oldest(rowOf, order, steps, top, seen)
    ensures Oldest(rowOf, order, steps, if Older(rowOf, order, steps, a, top) then a else top, seen + {a})
  {
  }

  lemma HasElement(s: set<int>)
    ensures s == {} || exists a :: a in s
  {
    if forall a :: a !in s { assert s == {}; }
  }

  method Pick(s: set<int>) returns (a: int)
    requires s != {}
    ensures a in s
  {
    HasElement(s);
    a :| a in s;
  }

  class RowManager {
    const maxRows: nat
    var rowOf: map<int, nat>
    var free: seq<nat>
    var order: map<int, nat>
    var nextId: nat

    ghost predicate Valid() reads this {
      Split(rowOf, free, maxRows) && Ordered(rowOf, order, nextId)
    }

    constructor (maxRows: nat)
      ensures Valid() && this.maxRows == maxRows && rowOf == map[] && free == Range(maxRows)
    {
      this.maxRows := maxRows;
      rowOf, free, order, nextId := map[], Range(maxRows), map[], 0;
      FreshRows(maxRows);
    }

    /** The row of `sid`, or the row freed longest ago, or none when all are lent. */
    method AllocateRow(sid: int) returns (row: Option<nat>)
      requires Valid()
      modifies this
      ensures Valid() && row == GetRow(rowOf, sid)
      ensures if sid in old(rowOf) || old(free) == [] then unchanged(this)
              else rowOf == old(rowOf)[sid := old(free)[0]] && free == old(free)[1..]
                   && order == old(order)[sid := old(nextId)] && nextId == old(nextId) + 1
    {
      if sid in rowOf { return Some(rowOf[sid]); }
      if free == [] { return None; }
      Lend(rowOf, free, maxRows, sid);
      var r := free[0];
      free := free[1..];
      rowOf := rowOf[sid := r];
      order := order[sid := nextId];
      nextId := nextId + 1;
      row := Some(r);
    }

    method FreeRow(sid: int) returns (row: Option<nat>)
      requires Valid()
      modifies this
      ensures Valid() && row == GetRow(old(rowOf), sid)
      ensures if sid !in old(rowOf) then unchanged(this)
              else rowOf == old(rowOf) - {sid} && free == old(free) + [old(rowOf)[sid]]
                   && order == old(order) - {sid} && nextId == old(nextId)
    {
      if sid !in rowOf { return None; }
      TakeBack(rowOf, free, maxRows, sid);
      var r := rowOf[sid];
      rowOf := rowOf - {sid};
      free := free + [r];
      order := order - {sid};
      row := Some(r);
    }

    /** Forgets every sequence but not the allocation numbers. */
    method Reset()
      requires Valid()
      modifies this
      ensures Valid() && rowOf == map[] && free == Range(maxRows) && order == old(order) && nextId == old(nextId)
    {
      rowOf := map[];
      free := Range(maxRows);
      FreshRows(maxRows);
    }

    /** The live sequence with the most steps, the earliest allocated among equals. */
    method GetOldestSequence(steps: seq<nat>) returns (oldest: Option<(int, nat)>)
      requires Valid() && |steps| == maxRows
      ensures oldest.None? <==> rowOf == map[]
      ensures oldest.Some? ==> Oldest(rowOf, order, steps, oldest.value.0, rowOf.Keys) && oldest.value.1 == rowOf[oldest.value.0]
      ensures oldest.Some? ==> forall a :: a in rowOf && a != oldest.value.0 ==>
                steps[rowOf[a]] < steps[oldest.value.1]
                || (steps[rowOf[a]] == steps[oldest.value.1] && order[oldest.value.0] < order[a])
    {
      oldest := None;
      var left := rowOf.Keys;
      ghost var seen := {};
      while |left| > 0
        invariant left <= rowOf.Keys && seen == rowOf.Keys - left && (oldest.None? <==> seen == {})
        invariant oldest.Some? ==> Oldest(rowOf, order, steps, oldest.value.0, seen) && oldest.value.1 == rowOf[oldest.value.0]
        decreases |left|
      {
        var a := Pick(left);
        left := left - {a};
        if oldest.Some? { OldestStep(rowOf, free, order, nextId, steps, oldest.value.0, seen, a); }
        if oldest.None? || Older(rowOf, order, steps, a, oldest.value.0) {
          oldest := Some((a, rowOf[a]));
        }
        seen := seen + {a};
        assert seen == rowOf.Keys - left;
      }
      assert seen == rowOf.Keys;
    }
  }
}
