/** Comparing raw digests with a target byte by byte, as 256-bit integers. */
module TargetCheck {

  type Byte = x: int | 0 <= x < 256

  /** The integer whose least significant byte comes first. */
  function LittleEndian(s: seq<Byte>): nat {
    if s == [] then 0 else s[0] + 256 * LittleEndian(s[1..])
  }

  /** The integer whose most significant byte comes first. */
  function BigEndian(s: seq<Byte>): nat {
    if s == [] then 0 else 256 * BigEndian(s[..|s| - 1]) + s[|s| - 1]
  }

  function Flip(s: seq<Byte>): (r: seq<Byte>)
    ensures |r| == |s| && forall i :: 0 <= i < |s| ==> r[i] == s[|s| - 1 - i]
  {
    seq(|s|, i requires 0 <= i < |s| => s[|s| - 1 - i])
  }

  lemma {:induction false} FlipReads(s: seq<Byte>)
    ensures LittleEndian(Flip(s)) == BigEndian(s) && BigEndian(Flip(s)) == LittleEndian(s)
  {
    if s != [] {
      FlipReads(s[..|s| - 1]);
      assert Flip(s)[1..] == Flip(s[..|s| - 1]);
      FlipReads(s[1..]);
      assert Flip(s)[..|s| - 1] == Flip(s[1..]);
    }
  }

  /** Where the loop stands after looking at the bytes from `i` up. */
  ghost predicate Compared(d: seq<Byte>, t: seq<Byte>, i: nat, decided: bool, less: bool)
    requires i <= |d| == |t|
  {
    (decided <==> LittleEndian(d[i..]) != LittleEndian(t[i..]))
    && (less <==> LittleEndian(d[i..]) < LittleEndian(t[i..]))
  }

  lemma ComparedStep(d: seq<Byte>, t: seq<Byte>, i: nat, decided: bool, less: bool)
    requires i < |d| == |t| && Compared(d, t, i + 1, decided, less)
    ensures var lt := d[i] < t[i] && !decided;
            var gt := d[i] > t[i] && !decided;
            Compared(d, t, i, decided || lt || gt, less || lt)
  {
    assert d[i..][1..] == d[i + 1..] && t[i..][1..] == t[i + 1..];
  }

  /** Once decided, the bytes below change nothing. */
  lemma {:induction false} ComparedToEnd(d: seq<Byte>, t: seq<Byte>, i: nat, less: bool)
    requires i <= |d| == |t| && Compared(d, t, i, true, less)
    ensures Compared(d, t, 0, true, less)
  {
    if i > 0 {
      ComparedStep(d, t, i - 1, true, less);
      ComparedToEnd(d, t, i - 1, less);
    }
  }

  method CheckHashAgainstTarget(digest: seq<seq<Byte>>, target: seq<Byte>) returns (result: seq<bool>)
    requires |target| == 32 && forall r :: 0 <= r < |digest| ==> |digest[r]| == 32
    ensures |result| == |digest|
    ensures forall r :: 0 <= r < |digest| ==> (result[r] <==> LittleEndian(digest[r]) <= BigEndian(target))
  {
    var tLe := Flip(target);
    var n := |digest|;
    var decided := seq(n, _ => false);
    result := seq(n, _ => false);
    var i := 32;
    while i > 0
      invariant 0 <= i <= 32 && |decided| == |result| == n
      invariant forall r :: 0 <= r < n ==> Compared(digest[r], tLe, i, decided[r], result[r])
    {
      i := i - 1;
      var lt := seq(n, r requires 0 <= r < n => digest[r][i] < tLe[i] && !decided[r]);
      var gt := seq(n, r requires 0 <= r < n => digest[r][i] > tLe[i] && !decided[r]);
      forall r | 0 <= r < n
        ensures Compared(digest[r], tLe, i, decided[r] || lt[r] || gt[r], result[r] || lt[r])
      {
        ComparedStep(digest[r], tLe, i, decided[r], result[r]);
      }
      result := seq(n, r requires 0 <= r < n => result[r] || lt[r]);
      decided := seq(n, r requires 0 <= r < n => decided[r] || lt[r] || gt[r]);
      if forall r :: 0 <= r < n ==> decided[r] { break; }
    }
    FlipReads(target);
    forall r | 0 <= r < n
      ensures (result[r] || !decided[r]) <==> LittleEndian(digest[r]) <= BigEndian(target)
    {
      if decided[r] { ComparedToEnd(digest[r], tLe, i, result[r]); }
      assert digest[r][0..] == digest[r] && tLe[0..] == tLe;
    }
    result := seq(n, r requires 0 <= r < n => result[r] || !decided[r]);
  }

  /** `a` precedes `b` in byte-string order: they differ, first at an index where `a` is smaller. */
  ghost predicate Precedes(a: seq<Byte>, b: seq<Byte>)
    requires |a| == |b|
  {
    exists i :: 0 <= i < |a| && a[..i] == b[..i] && a[i] < b[i]
  }

  lemma {:induction false} ByteOrderIsNumberOrder(a: seq<Byte>, b: seq<Byte>)
    requires |a| == |b|
    ensures Precedes(a, b) <==> BigEndian(a) < BigEndian(b)
    ensures a == b <==> BigEndian(a) == BigEndian(b)
  {
    if a != [] {
      var k := |a| - 1;
      var p, q := a[..k], b[..k];
      ByteOrderIsNumberOrder(p, q);
      assert a == p + [a[k]] && b == q + [b[k]];
      PrecedesStep(a, b);
      hide Precedes;
    }
  }

  /** Order by the front, then by the last byte. */
  lemma PrecedesStep(a: seq<Byte>, b: seq<Byte>)
    requires |a| == |b| > 0
    ensures var k := |a| - 1;
            Precedes(a, b) <==> Precedes(a[..k], b[..k]) || (a[..k] == b[..k] && a[k] < b[k])
  {
    var k := |a| - 1;
    var p, q := a[..k], b[..k];
    if Precedes(a, b) {
      var i :| 0 <= i < |a| && a[..i] == b[..i] && a[i] < b[i];
      if i < k { assert p[..i] == a[..i] && q[..i] == b[..i] && p[i] < q[i]; }
    }
    if Precedes(p, q) {
      var i :| 0 <= i < k && p[..i] == q[..i] && p[i] < q[i];
      assert p[..i] == a[..i] && q[..i] == b[..i];
      assert a[..i] == b[..i] && a[i] < b[i];
    }
  }

  /** The digest in display order, byte-reversed, does not come after the target's bytes exactly
      when the raw digest meets the target as a little-endian number. */
  lemma DisplayOrderAgrees(digest: seq<Byte>, target: seq<Byte>)
    requires |digest| == |target|
    ensures !Precedes(target, Flip(digest)) <==> LittleEndian(digest) <= BigEndian(target)
  {
    FlipReads(digest);
    ByteOrderIsNumberOrder(target, Flip(digest));
  }
}
