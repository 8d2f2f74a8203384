/** The sampler pool: one mining thread hands each step to a fixed set of worker groups and waits
    for all of them. Every mutex section and every sampled stream is one step of the machine. */
module SamplerPool {
  import Arith

  // ---- splitting the streams over the groups ----

  function Max(a: int, b: int): int { if a < b then b else a }
  function Min(a: int, b: int): int { if a < b then a else b }

  /** Group `g` owns the streams from `bounds[g]` up to `bounds[g + 1]`. */
  predicate Partition(bounds: seq<nat>, n: nat) {
    |bounds| >= 2 && bounds[0] == 0 && bounds[|bounds| - 1] == n
    && forall g: nat :: g + 1 < |bounds| ==> bounds[g] <= bounds[g + 1]
  }

  /** `left` streams can go to `k` groups with between `q` and `c` each. */
  ghost predicate Shares(left: int, k: nat, q: nat, c: nat) {
    q * k <= left <= c * k
  }

  lemma SharesStep(x: nat, k: nat, q: nat, c: nat)
    requires k > 0 && Shares(x, k, q, c)
    ensures q <= x / k <= c && 0 <= x / k <= x && Shares(x - x / k, k - 1, q, c)
  {
    Arith.DivIsFloor(x, k, 0);
    Arith.DivIsFloor(x, k, q);
    ShareBelow(x, k, x / k, q);
    ShareAbove(x, k, x / k, c);
  }

  lemma ShareBelow(x: nat, k: nat, d: nat, q: nat)
    requires k > 0 && q <= d && k * d <= x
    ensures d <= x && q * (k - 1) <= x - d
  {
    Arith.MulMono(1, k, d);
    assert k * d == d * (k - 1) + d;
    Arith.MulMono(q, d, k - 1);
  }

  lemma ShareAbove(x: nat, k: nat, d: nat, c: nat)
    requires k > 0 && k * d <= x < k * d + k && x <= c * k
    ensures d <= c && x - d <= c * (k - 1)
  {
    assert k * d == d * (k - 1) + d && c * k == c * (k - 1) + c;
    if d < c {
      Arith.MulMono(d + 1, c, k - 1);
      assert (d + 1) * (k - 1) == d * (k - 1) + k - 1;
    } else {
      Arith.MulMono(c, d, k);
      assert d > c ==> d * k >= (c + 1) * k by { if d > c { Arith.MulMono(c + 1, d, k); } }
      assert (c + 1) * k == c * k + k;
    }
  }

  lemma SharesAll(n: nat, k: nat)
    requires k > 0
    ensures Shares(n, k, n / k, (n + k - 1) / k)
    ensures forall left, q: nat, c: nat :: Shares(left, 0, q, c) ==> left == 0
  {
    assert n == n / k * k + n % k;
    var m := n + k - 1;
    assert m == m / k * k + m % k;
  }

  /** Contiguous, balanced: each group takes its share of what is left. */
  method Split(streams: nat, wanted: int) returns (bounds: seq<nat>)
    requires streams > 0
    ensures |bounds| - 1 == Max(1, Min(wanted, streams)) && Partition(bounds, streams)
    ensures forall g: nat :: g + 1 < |bounds| ==>
              bounds[g] + streams / (|bounds| - 1) <= bounds[g + 1] <= bounds[g] + (streams + |bounds| - 2) / (|bounds| - 1)
  {
    var groups: nat := Max(1, Min(wanted, streams));
    SharesAll(streams, groups);
    bounds := Cut(streams, groups, streams / groups, (streams + groups - 1) / groups);
  }

  /** Every group gets between `q` and `c` streams when that many can be shared out. */
  method Cut(streams: nat, groups: nat, ghost q: nat, ghost c: nat) returns (bounds: seq<nat>)
    requires streams > 0 && groups > 0 && Shares(streams, groups, q, c) && forall left: nat :: Shares(left, 0, q, c) ==> left == 0
    ensures |bounds| - 1 == groups && Partition(bounds, streams)
    ensures forall g: nat :: g < groups ==> bounds[g] + q <= bounds[g + 1] <= bounds[g] + c
  {
    hide Shares;
    var lo: nat := 0;
    bounds := [0];
    for g := 0 to groups
      invariant |bounds| == g + 1 && bounds[0] == 0 && bounds[g] == lo <= streams
      invariant Shares(streams - lo, groups - g, q, c)
      invariant forall h: nat :: h < g ==> bounds[h] + q <= bounds[h + 1] <= bounds[h] + c
    {
      SharesStep(streams - lo, groups - g, q, c);
      var count := (streams - lo) / (groups - g);
      lo := lo + count;
      bounds := bounds + [lo];
    }
  }

  /** The group count the miner asks for: as configured, raised until a group fits the GPU sort. */
  method AdjustGroups(slots: int, configured: int) returns (streams: nat, groups: nat)
    ensures streams == Max(1, slots) && 1 <= groups <= streams
    ensures (streams + groups - 1) / groups <= 64
    ensures groups == Max(1, Min(configured, streams))
            || (groups > configured && forall h: nat :: 0 < h < groups ==> streams > 64 * h)
  {
    streams := Max(1, slots);
    groups := Max(1, Min(configured, streams));
    var least := (streams + 63) / 64;
    if groups < least { groups := least; }
    Arith.MulMono(least, groups, 64);
    FitsSort(streams, groups);
  }

  lemma FitsSort(streams: nat, groups: nat)
    requires groups > 0 && streams <= groups * 64
    ensures (streams + groups - 1) / groups <= 64
  {
    var m := streams + groups - 1;
    Arith.DivIsFloor(m, groups, 65);
  }
}
