/** Circular buffers read as the tail of an append-only log. */
module Circular {
  import Arith

  /** The buffer from its write position round: oldest entry first. */
  function Rotated<T>(ring: seq<T>, pos: nat): seq<T>
    requires pos <= |ring|
  {
    ring[pos..] + ring[..pos]
  }

  /** The last `w` entries of a log, padded on the left. */
  function LastW<T>(log: seq<T>, w: nat, pad: T): (r: seq<T>)
    ensures |r| == w
  {
    seq(w, k requires 0 <= k < w => if |log| + k < w then pad else log[|log| + k - w])
  }

  /** `ring` with write position `pos` stands for `log`. */
  ghost predicate Shows<T>(ring: seq<T>, pos: nat, log: seq<T>, w: nat, pad: T) {
    |ring| == w > pos && Rotated(ring, pos) == LastW(log, w, pad)
  }

  lemma NextPos(pos: nat, w: nat)
    requires pos < w
    ensures (pos + 1) % w == if pos + 1 == w then 0 else pos + 1
  {
    if pos + 1 < w { Arith.SmallMod(pos + 1, w); } else { Arith.DivModUnique(w, w, 1, 0); }
  }

  /** Overwriting the oldest entry appends to the log. */
  lemma WriteAppends<T>(ring: seq<T>, pos: nat, log: seq<T>, w: nat, pad: T, x: T)
    requires Shows(ring, pos, log, w, pad)
    ensures Shows(ring[pos := x], (pos + 1) % w, log + [x], w, pad)
  {
    var ring', next := ring[pos := x], (pos + 1) % w;
    NextPos(pos, w);
    forall k | 0 <= k < w
      ensures Rotated(ring', next)[k] == LastW(log + [x], w, pad)[k]
    {
      if k + 1 < w {
        assert Rotated(ring', next)[k] == Rotated(ring, pos)[k + 1];
      }
    }
  }

  lemma BlankShowsNothing<T>(w: nat, pos: nat, pad: T)
    requires pos < w
    ensures Shows(seq(w, _ => pad), pos, [], w, pad)
  {
  }

  /** A tail written from slot 0 shows the whole log it is the tail of. */
  lemma TailShows<T>(log: seq<T>, w: nat, pad: T)
    requires w > 0
    ensures var tail := if |log| <= w then log else log[|log| - w..];
            Shows(tail + seq(w - |tail|, _ => pad), |tail| % w, log, w, pad)
  {
    var tail := if |log| <= w then log else log[|log| - w..];
    if |tail| < w { Arith.SmallMod(|tail|, w); } else { Arith.DivModUnique(w, w, 1, 0); }
  }

  /** Two logs with the same last `w` entries show alike; entries older than that are gone. */
  lemma ShowsTail<T>(log: seq<T>, w: nat, pad: T)
    requires |log| >= w
    ensures LastW(log, w, pad) == log[|log| - w..]
  {
  }
}
