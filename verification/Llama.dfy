/** A llama context as the engine uses it: a key-value cache per sequence, and one output buffer
    that every decode overwrites. The network is an unknown function of a sequence's tokens. */
module Llama {

  datatype Option<+T> = None | Some(value: T)

  datatype Row = Row(token: int, pos: nat, seqId: nat, output: bool)

  /** The cache after one row: its token at the end of its sequence. */
  function Insert(kv: seq<seq<int>>, row: Row): (r: seq<seq<int>>)
    ensures |r| == |kv|
  {
    if row.seqId < |kv| then kv[row.seqId := kv[row.seqId] + [row.token]] else kv
  }

  function After(kv: seq<seq<int>>, batch: seq<Row>): (r: seq<seq<int>>)
    ensures |r| == |kv|
  {
    if batch == [] then kv else Insert(After(kv, batch[..|batch| - 1]), batch[|batch| - 1])
  }

  /** Every row continues its sequence at the next position. */
  predicate Consecutive(kv: seq<seq<int>>, batch: seq<Row>) {
    batch == [] ||
    (var k := |batch| - 1;
     Consecutive(kv, batch[..k]) && batch[k].seqId < |kv| && batch[k].pos == |After(kv, batch[..k])[batch[k].seqId]|)
  }

  /** A row's logits depend on the tokens of its own sequence up to its own position. */
  function RowLogits<L>(net: seq<int> -> L, kv: seq<seq<int>>, batch: seq<Row>, r: nat): L
    requires r < |batch|
  {
    if batch[r].seqId < |kv| then net(After(kv, batch[..r + 1])[batch[r].seqId]) else net([])
  }

  /** Host copies of the outputs, by batch row. */
  function HostRows<L>(net: seq<int> -> L, kv: seq<seq<int>>, batch: seq<Row>): seq<Option<L>> {
    seq(|batch|, r requires 0 <= r < |batch| => if batch[r].output then Some(RowLogits(net, kv, batch, r)) else None)
  }

  /** The logits of the rows marked for output, in batch order. */
  function OutputRows<L>(net: seq<int> -> L, kv: seq<seq<int>>, batch: seq<Row>): seq<L> {
    if batch == [] then []
    else
      var k := |batch| - 1;
      OutputRows(net, kv, batch[..k]) + (if batch[k].output then [RowLogits(net, kv, batch, k)] else [])
  }

  lemma Extend(kv: seq<seq<int>>, batch: seq<Row>, row: Row)
    ensures After(kv, batch + [row]) == Insert(After(kv, batch), row)
    ensures Consecutive(kv, batch + [row]) <==>
              Consecutive(kv, batch) && row.seqId < |kv| && row.pos == |After(kv, batch)[row.seqId]|
  {
    assert (batch + [row])[..|batch|] == batch;
  }

  lemma RowStable<L>(net: seq<int> -> L, kv: seq<seq<int>>, batch: seq<Row>, row: Row, r: nat)
    requires r < |batch|
    ensures RowLogits(net, kv, batch + [row], r) == RowLogits(net, kv, batch, r)
  {
    assert (batch + [row])[..r + 1] == batch[..r + 1];
  }

  class Context<L(!new)> {
    const net: seq<int> -> L
    var kv: seq<seq<int>>
    var host: seq<Option<L>>     // by batch row; stale while the copy is skipped
    var device: seq<L>           // output rows only, in batch order
    var skipCopy: bool
    ghost var evaluated: nat     // tokens the network has processed

    constructor (net: seq<int> -> L, slots: nat)
      ensures this.net == net && kv == seq(slots, _ => []) && !skipCopy && evaluated == 0
    {
      this.net := net;
      kv, host, device, skipCopy, evaluated := seq(slots, _ => []), [], [], false, 0;
    }

    /** Forgets every sequence. */
    method Clear()
      modifies this`kv
      ensures kv == seq(|old(kv)|, _ => [])
    {
      kv := seq(|kv|, _ => []);
    }

    method SetSkipCopy(skip: bool)
      modifies this`skipCopy
      ensures skipCopy == skip
    {
      skipCopy := skip;
    }

    /** Gives sequence `dst`, still empty, what sequence `src` holds. */
    method SeqCopy(src: nat, dst: nat)
      requires src < |kv| && dst < |kv| && kv[dst] == []
      modifies this`kv
      ensures kv == old(kv)[dst := old(kv)[src]]
    {
      kv := kv[dst := kv[src]];
    }

    /** Evaluates a batch and overwrites the output buffers; refuses rows out of position. */
    method Decode(batch: seq<Row>) returns (ok: bool)
      modifies this`kv, this`host, this`device, this`evaluated
      ensures ok <==> Consecutive(old(kv), batch)
      ensures ok ==> kv == After(old(kv), batch) && evaluated == old(evaluated) + |batch|
      ensures ok ==> device == OutputRows(net, old(kv), batch)
      ensures ok && !skipCopy ==> host == HostRows(net, old(kv), batch)
      ensures skipCopy || !ok ==> host == old(host)
      ensures !ok ==> kv == old(kv) && device == old(device) && evaluated == old(evaluated)
    {
      ok := Consecutive(kv, batch);
      if ok {
        device := OutputRows(net, kv, batch);
        if !skipCopy { host := HostRows(net, kv, batch); }
        kv := After(kv, batch);
        evaluated := evaluated + |batch|;
      }
    }
  }
}
