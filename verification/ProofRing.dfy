/** The proof buffers: for every row a circular record of its last `w` decode steps. */
module ProofRing {
  import opened Circular
  import opened Rows
  import Arith

  /** One step of one row; `stats` is the part a full reset does not clear. */
  datatype Entry<+D> = Entry(data: D, stats: D)

  /** The host's copies of how long a row's header and VDF are. */
  datatype Lengths = Lengths(header: nat, vdf: nat)

  /** Work parameters as a request brings them: the sizes of three of their byte strings, and the rest. */
  datatype Snapshot<+D> = Snapshot(data: D, headerBytes: nat, vdfBytes: nat, hashBytes: nat)

  const Unset := Lengths(0, 0)

  function AtMost(n: nat, cap: nat): nat { if n < cap then n else cap }

  /** Without a header prefix the block hash takes its place. */
  function LengthsOf<D>(snapshot: Snapshot<D>): Lengths {
    Lengths(if snapshot.headerBytes > 0 then AtMost(snapshot.headerBytes, 76) else AtMost(snapshot.hashBytes, 32),
            AtMost(snapshot.vdfBytes, 1024))
  }

  function LengthsFor<D>(params: Option<Snapshot<D>>): Lengths {
    if params.Some? then LengthsOf(params.value) else Unset
  }

  /** What a row holds. */
  datatype RowState<+D> = RowState(column: seq<Entry<D>>, steps: nat, params: Option<Snapshot<D>>, lengths: Lengths)

  function Zeros(n: nat): seq<nat> { seq(n, _ => 0) }

  /** Every clean row shows its log, at the position its step count gives. */
  ghost predicate RowShows<D>(column: seq<Entry<D>>, steps: nat, log: seq<Entry<D>>, clean: bool, w: nat, blank: Entry<D>) {
    w > 0 && |column| == w && (clean ==> steps == |log| && Shows(column, steps % w, log, w, blank))
  }

  function Blanks<D>(w: nat, blank: Entry<D>): seq<Entry<D>> { seq(w, _ => blank) }

  lemma BlankRow<D>(w: nat, blank: Entry<D>)
    requires w > 0
    ensures RowShows(Blanks(w, blank), 0, [], true, w, blank)
  {
    BlankShowsNothing(w, 0, blank);
  }

  lemma RowWrite<D>(column: seq<Entry<D>>, steps: nat, log: seq<Entry<D>>, clean: bool, w: nat, blank: Entry<D>, e: Entry<D>)
    requires RowShows(column, steps, log, clean, w, blank)
    ensures RowShows(column[steps % w := e], steps + 1, log + [e], clean, w, blank)
  {
    if clean {
      WriteAppends(column, steps % w, log, w, blank, e);
      NextSlot(steps, w);
    }
  }

  lemma NextSlot(steps: nat, w: nat)
    requires w > 0
    ensures (steps % w + 1) % w == (steps + 1) % w
  {
    Arith.ModAdd(steps, 1, w);
  }

  lemma Remainder(q: nat, w: nat, r: nat)
    requires r < w
    ensures (q * w + r) % w == r
  {
    Arith.DivModUnique(q * w + r, w, q, r);
  }

  /** `+= 1` through an index tensor: once a row, however often it is listed. */
  function Stepped(steps: seq<nat>, rows: seq<nat>): (r: seq<nat>)
    ensures |r| == |steps|
    ensures forall i :: 0 <= i < |steps| ==> r[i] == steps[i] + if i in rows then 1 else 0
  {
    seq(|steps|, i requires 0 <= i < |steps| => steps[i] + if i in rows then 1 else 0)
  }

  function StatsOnly<D>(column: seq<Entry<D>>, zero: D): (r: seq<Entry<D>>)
    ensures |r| == |column|
  {
    seq(|column|, k requires 0 <= k < |column| => Entry(zero, column[k].stats))
  }

  function EmptyRow<D>(w: nat, zero: D): RowState<D> { RowState(Blanks(w, Entry(zero, zero)), 0, None, Unset) }

  /** A full reset spares the statistics and the host's copies of the two lengths. */
  function AfterReset<D>(row: RowState<D>, zero: D): RowState<D> {
    RowState(StatsOnly(row.column, zero), 0, None, row.lengths)
  }

  /** It leaves a row empty exactly when its statistics were zero already and no lengths were set. */
  lemma BlankAfterReset<D>(row: RowState<D>, zero: D)
    ensures AfterReset(row, zero) == EmptyRow(|row.column|, zero)
            <==> row.lengths == Unset && forall k :: 0 <= k < |row.column| ==> row.column[k].stats == zero
  {
    var column := row.column;
    var blank := Blanks(|column|, Entry(zero, zero));
    if forall k :: 0 <= k < |column| ==> column[k].stats == zero {
      assert StatsOnly(column, zero) == blank;
    }
    forall k | 0 <= k < |column|
      ensures StatsOnly(column, zero)[k] == blank[k] <==> column[k].stats == zero
    {
    }
    assert StatsOnly(column, zero) == blank ==> forall k :: 0 <= k < |column| ==> StatsOnly(column, zero)[k] == blank[k];
  }

  /** A row of two steps, the first with statistics, is not empty after a reset. */
  lemma StatsOutliveReset()
    ensures var row := AfterReset(RowState([Entry(5, 9), Entry(0, 0)], 2, None, Unset), 0);
            row == RowState([Entry(0, 9), Entry(0, 0)], 0, None, Unset) != EmptyRow(2, 0)
  {
    assert Blanks(2, Entry(0, 0))[0] == Entry(0, 0);
  }

  /** Nor is one without statistics that was given a header of 76 bytes. */
  method LengthsOutliveReset() returns (row: RowState<int>)
    ensures row == EmptyRow(2, 0).(lengths := Lengths(76, 0)) != EmptyRow(2, 0)
  {
    var b := new RingBuffers<int>(2, 1, 0, false);
    assert b.Row(0) == EmptyRow(2, 0);
    b.WriteParams(0, Snapshot(5, 76, 0, 32));
    assert b.Row(0) == EmptyRow(2, 0).(params := Some(Snapshot(5, 76, 0, 32)), lengths := Lengths(76, 0));
    b.Reset();
    assert StatsOnly(Blanks(2, Entry(0, 0)), 0) == Blanks(2, Entry(0, 0));
    row := b.Row(0);
  }

  /** The logs after a step of `rows`. */
  ghost function Logged<D>(logs: seq<seq<Entry<D>>>, rows: seq<nat>, values: seq<Entry<D>>): (r: seq<seq<Entry<D>>>)
    requires |rows| == |values|
    ensures |r| == |logs|
  {
    if rows == [] then logs
    else
      var k, before := |rows| - 1, Logged(logs, rows[..|rows| - 1], values[..|rows| - 1]);
      if rows[k] < |logs| then before[rows[k] := before[rows[k]] + [values[k]]] else before
  }

  lemma {:induction false} LoggedAll<D>(logs: seq<seq<Entry<D>>>, rows: seq<nat>, values: seq<Entry<D>>)
    requires |rows| == |values| && Distinct(rows) && forall i :: 0 <= i < |rows| ==> rows[i] < |logs|
    ensures forall i :: 0 <= i < |rows| ==> Logged(logs, rows, values)[rows[i]] == logs[rows[i]] + [values[i]]
    ensures forall r :: 0 <= r < |logs| && r !in rows ==> Logged(logs, rows, values)[r] == logs[r]
  {
    if rows != [] {
      var k := |rows| - 1;
      LoggedAll(logs, rows[..k], values[..k]);
      NotBefore(rows, k);
      assert rows == rows[..k] + [rows[k]];
    }
  }

  /** The columns after a step of `rows`, each written at the slot of its counter. */
  function Filed<D>(columns: seq<seq<Entry<D>>>, steps: seq<nat>, w: nat, rows: seq<nat>,
                    values: seq<Entry<D>>): (r: seq<seq<Entry<D>>>)
    requires |rows| == |values| && w > 0
    ensures |r| == |columns|
  {
    if rows == [] then columns
    else
      var k, before := |rows| - 1, Filed(columns, steps, w, rows[..|rows| - 1], values[..|rows| - 1]);
      var r := rows[k];
      if r < |columns| && r < |steps| && steps[r] % w < |before[r]|
      then before[r := before[r][steps[r] % w := values[k]]] else before
  }

  lemma {:induction false} FiledAll<D>(columns: seq<seq<Entry<D>>>, steps: seq<nat>, w: nat, rows: seq<nat>,
                                       values: seq<Entry<D>>)
    requires |rows| == |values| && w > 0 && Distinct(rows)
    requires forall i :: 0 <= i < |rows| ==> rows[i] < |columns| && rows[i] < |steps| && |columns[rows[i]]| == w
    ensures forall i :: 0 <= i < |rows| ==>
              Filed(columns, steps, w, rows, values)[rows[i]] == columns[rows[i]][steps[rows[i]] % w := values[i]]
    ensures forall r :: 0 <= r < |columns| && r !in rows ==> Filed(columns, steps, w, rows, values)[r] == columns[r]
  {
    if rows != [] {
      var k := |rows| - 1;
      FiledAll(columns, steps, w, rows[..k], values[..k]);
      NotBefore(rows, k);
      assert rows == rows[..k] + [rows[k]];
      assert rows[k] !in rows[..k];
    }
  }

  lemma FiledIs<D>(columns: seq<seq<Entry<D>>>, written: seq<seq<Entry<D>>>, steps: seq<nat>, w: nat, rows: seq<nat>,
                   values: seq<Entry<D>>)
    requires |rows| == |values| && w > 0 && Distinct(rows) && |written| == |columns|
    requires forall i :: 0 <= i < |rows| ==> rows[i] < |columns| && rows[i] < |steps| && |columns[rows[i]]| == w
    requires forall i :: 0 <= i < |rows| ==> written[rows[i]] == columns[rows[i]][steps[rows[i]] % w := values[i]]
    requires forall r :: 0 <= r < |columns| && r !in rows ==> written[r] == columns[r]
    ensures written == Filed(columns, steps, w, rows, values)
  {
    FiledAll(columns, steps, w, rows, values);
    forall r | 0 <= r < |columns|
      ensures written[r] == Filed(columns, steps, w, rows, values)[r]
    {
      if r in rows { var i :| 0 <= i < |rows| && rows[i] == r; }
    }
  }

  /** One row after the step, listed or not. */
  lemma RowWritten<D>(was: seq<Entry<D>>, column: seq<Entry<D>>, steps: nat, logs: seq<seq<Entry<D>>>, r: nat,
                      clean: bool, w: nat,
                      blank: Entry<D>, rows: seq<nat>, values: seq<Entry<D>>)
    requires |rows| == |values| && Distinct(rows) && (forall i :: 0 <= i < |rows| ==> rows[i] < |logs|) && r < |logs|
    requires RowShows(was, steps, logs[r], clean, w, blank)
    requires forall i :: 0 <= i < |rows| && rows[i] == r ==> column == was[steps % w := values[i]]
    requires r !in rows ==> column == was
    ensures RowShows(column, steps + if r in rows then 1 else 0, Logged(logs, rows, values)[r], clean, w, blank)
  {
    LoggedAll(logs, rows, values);
    if i :| 0 <= i < |rows| && rows[i] == r {
      RowWrite(was, steps, logs[r], clean, w, blank, values[i]);
    }
  }

  class RingBuffers<D(!new)> {
    const w: nat
    const maxRows: nat
    const zero: D
    const fastpath: bool
    var columns: seq<seq<Entry<D>>>        // by row, then by slot
    var steps: seq<nat>
    var stepsHost: seq<nat>
    var hostOk: bool
    var params: seq<Option<Snapshot<D>>>   // the row's work parameters and admission state
    var lengths: seq<Lengths>              // kept on the host beside them
    ghost var logs: seq<seq<Entry<D>>>     // what each row's present owner has written
    ghost var clean: seq<bool>             // rows cleared since the last full reset

    ghost predicate Valid() reads this {
      w > 0 && |columns| == |steps| == |stepsHost| == |params| == |lengths| == |logs| == |clean| == maxRows
      && (forall r :: 0 <= r < maxRows && clean[r] ==> lengths[r] == LengthsFor(params[r]))
      && (forall r :: 0 <= r < maxRows ==> RowShows(columns[r], steps[r], logs[r], clean[r], w, Blank()))
      && (hostOk ==> fastpath && stepsHost == steps)
    }

    function Blank(): Entry<D> { Entry(zero, zero) }

    function Row(r: nat): RowState<D>
      reads this
      requires r < |columns| && r < |steps| && r < |params| && r < |lengths|
    {
      RowState(columns[r], steps[r], params[r], lengths[r])
    }

    constructor (w: nat, maxRows: nat, zero: D, fastpath: bool)
      requires w > 0
      ensures Valid() && this.w == w && this.maxRows == maxRows && this.zero == zero && hostOk == fastpath == this.fastpath
      ensures clean == seq(maxRows, _ => true) && steps == Zeros(maxRows)
              && forall r :: 0 <= r < maxRows ==> Row(r) == EmptyRow(w, zero)
    {
      this.w, this.maxRows, this.zero, this.fastpath := w, maxRows, zero, fastpath;
      columns := seq(maxRows, _ => Blanks(w, Entry(zero, zero)));
      steps, stepsHost, params := Zeros(maxRows), Zeros(maxRows), seq(maxRows, _ => None);
      lengths := seq(maxRows, _ => Unset);
      hostOk := fastpath;
      logs := seq(maxRows, _ => []);
      clean := seq(maxRows, _ => true);
      BlankRow(w, Entry(zero, zero));
    }

    /** Nothing of a row's owner survives, and no other row changes. */
    method ClearRow(row: nat)
      requires Valid() && row < maxRows
      modifies this
      ensures Valid() && hostOk == old(hostOk)
      ensures columns == old(columns)[row := Blanks(w, Blank())] && steps == old(steps)[row := 0]
      ensures params == old(params)[row := None] && lengths == old(lengths)[row := Unset]
      ensures logs == old(logs)[row := []] && clean == old(clean)[row := true]
    {
      BlankRow(w, Blank());
      columns := columns[row := Blanks(w, Blank())];
      steps := steps[row := 0];
      stepsHost := stepsHost[row := 0];
      params := params[row := None];
      lengths := lengths[row := Unset];
      logs := logs[row := []];
      clean := clean[row := true];
    }

    method WriteParams(row: nat, snapshot: Snapshot<D>)
      requires Valid() && row < maxRows
      modifies this`params, this`lengths
      ensures Valid() && params == old(params)[row := Some(snapshot)] && lengths == old(lengths)[row := LengthsOf(snapshot)]
      ensures lengths[row].vdf <= 1024 && (snapshot.vdfBytes <= 1024 ==> lengths[row].vdf == snapshot.vdfBytes)
      ensures lengths[row].header <= 76
      ensures 0 < snapshot.headerBytes <= 76 ==> lengths[row].header == snapshot.headerBytes
      ensures snapshot.headerBytes == 0 && snapshot.hashBytes <= 32 ==> lengths[row].header == snapshot.hashBytes
      ensures snapshot.headerBytes == 0 && snapshot.hashBytes > 32 ==> lengths[row].header == 32
      ensures snapshot.headerBytes > 76 ==> lengths[row].header == 76
      ensures snapshot.vdfBytes > 1024 ==> lengths[row].vdf == 1024
    {
      params := params[row := Some(snapshot)];
      var header := AtMost(snapshot.headerBytes, 76);
      lengths := lengths[row := Lengths(header, AtMost(snapshot.vdfBytes, 1024))];
      if header == 0 && snapshot.hashBytes > 0 {
        lengths := lengths[row := lengths[row].(header := AtMost(snapshot.hashBytes, 32))];
      }
    }

    method ClearRows(rows: seq<nat>)
      requires Valid() && forall i :: 0 <= i < |rows| ==> rows[i] < maxRows
      modifies this
      ensures Valid() && hostOk == old(hostOk)
      ensures forall r :: 0 <= r < maxRows && r in rows ==>
                Row(r) == EmptyRow(w, zero) && logs[r] == [] && clean[r]
      ensures forall r :: 0 <= r < maxRows && r !in rows ==>
                Row(r) == old(Row(r)) && logs[r] == old(logs)[r] && clean[r] == old(clean)[r]
    {
      for i := 0 to |rows|
        invariant Valid() && hostOk == old(hostOk)
        invariant forall r :: 0 <= r < maxRows && r in rows[..i] ==>
                    Row(r) == EmptyRow(w, zero) && logs[r] == [] && clean[r]
        invariant forall r :: 0 <= r < maxRows && r !in rows[..i] ==>
                    Row(r) == old(Row(r)) && logs[r] == old(logs)[r] && clean[r] == old(clean)[r]
      {
        assert rows[..i + 1] == rows[..i] + [rows[i]];
        ClearRow(rows[i]);
      }
      assert rows[..|rows|] == rows;
    }

    /** The full reset zeroes the device and two host copies only, so no row counts as cleared. */
    method Reset()
      requires Valid()
      modifies this
      ensures Valid() && hostOk == old(hostOk) && steps == Zeros(maxRows) && clean == seq(maxRows, _ => false)
              && logs == old(logs)
      ensures forall r :: 0 <= r < maxRows ==> Row(r) == AfterReset(old(Row(r)), zero)
    {
      var z, c := zero, columns;
      columns := seq(maxRows, r requires 0 <= r < |c| => StatsOnly(c[r], z));
      steps, stepsHost, params := Zeros(maxRows), Zeros(maxRows), seq(maxRows, _ => None);
      clean := seq(maxRows, _ => false);
    }

    /** The step's entries go to each row's current slot. */
    method WriteBuffers(pos: seq<nat>, rows: seq<nat>, values: seq<Entry<D>>)
      requires |columns| == maxRows && |pos| == |rows| == |values| && Distinct(rows)
      requires forall r :: 0 <= r < maxRows ==> |columns[r]| == w
      requires forall i :: 0 <= i < |rows| ==> rows[i] < maxRows && pos[i] < w
      modifies this`columns
      ensures |columns| == maxRows
      ensures forall i :: 0 <= i < |rows| ==> columns[rows[i]] == old(columns)[rows[i]][pos[i] := values[i]]
      ensures forall r :: 0 <= r < maxRows && r !in rows ==> columns[r] == old(columns)[r]
    {
      for i := 0 to |rows|
        invariant |columns| == maxRows && forall r :: 0 <= r < maxRows ==> |columns[r]| == w
        invariant forall j :: 0 <= j < i ==> columns[rows[j]] == old(columns)[rows[j]][pos[j] := values[j]]
        invariant forall r :: 0 <= r < maxRows && r !in rows[..i] ==> columns[r] == old(columns)[r]
      {
        NotBefore(rows, i);
        assert rows[..i + 1] == rows[..i] + [rows[i]];
        columns := columns[rows[i] := columns[rows[i]][pos[i] := values[i]]];
      }
      assert rows[..|rows|] == rows;
    }

    /** The host mirror follows when told the rows; otherwise it is given up for good. */
    method IncrementSteps(rows: seq<nat>, rowsHost: Option<seq<nat>>)
      requires |steps| == |stepsHost| == maxRows && forall i :: 0 <= i < |rows| ==> rows[i] < maxRows
      requires rowsHost.Some? ==> rowsHost.value == rows && Distinct(rows)
      modifies this`steps, this`stepsHost, this`hostOk
      ensures steps == Stepped(old(steps), rows) && |stepsHost| == maxRows
      ensures hostOk <==> old(hostOk) && (rows == [] || !fastpath || rowsHost.Some?)
      ensures old(hostOk ==> fastpath && stepsHost == steps) ==> (hostOk ==> fastpath && stepsHost == steps)
    {
      if |rows| == 0 {
        assert steps == Stepped(steps, rows);
        return;
      }
      steps := Stepped(steps, rows);
      if !fastpath { return; }
      if rowsHost.None? {
        hostOk := false;
        return;
      }
      for i := 0 to |rows|
        invariant |stepsHost| == maxRows && steps == Stepped(old(steps), rows) && hostOk == old(hostOk)
        invariant old(stepsHost == steps) ==> stepsHost == Stepped(old(steps), rows[..i])
      {
        NotBefore(rows, i);
        assert rows[..i + 1] == rows[..i] + [rows[i]];
        stepsHost := stepsHost[rows[i] := stepsHost[rows[i]] + 1];
      }
      assert rows[..|rows|] == rows;
    }

    /** One decode step of the listed rows: the slots of their counters are written and the
        counters advance. */
    method Commit(rows: seq<nat>, values: seq<Entry<D>>, rowsHost: Option<seq<nat>>)
      requires Valid() && |rows| == |values| && Distinct(rows) && forall i :: 0 <= i < |rows| ==> rows[i] < maxRows
      requires rowsHost.Some? ==> rowsHost.value == rows
      modifies this
      ensures Valid() && params == old(params) && lengths == old(lengths) && clean == old(clean)
      ensures columns == Filed(old(columns), old(steps), w, rows, values) && logs == Logged(old(logs), rows, values)
      ensures forall i :: 0 <= i < |rows| ==> logs[rows[i]] == old(logs)[rows[i]] + [values[i]]
      ensures forall r :: 0 <= r < maxRows && r !in rows ==> columns[r] == old(columns)[r] && logs[r] == old(logs)[r]
      ensures steps == Stepped(old(steps), rows)
      ensures hostOk <==> old(hostOk) && (rows == [] || rowsHost.Some?)
    {
      var before, width := steps, w;
      var pos := seq(|rows|, i requires 0 <= i < |rows| && rows[i] < |before| && width > 0 => before[rows[i]] % width);
      WriteBuffers(pos, rows, values);
      IncrementSteps(rows, rowsHost);
      ghost var was := logs;
      logs := Logged(logs, rows, values);
      LoggedAll(was, rows, values);
      FiledIs(old(columns), columns, before, w, rows, values);
      forall r | 0 <= r < maxRows
        ensures RowShows(columns[r], steps[r], logs[r], clean[r], w, Blank())
      {
        RowWritten(old(columns)[r], columns[r], before[r], was, r, clean[r], w, Blank(), rows, values);
      }
    }

    /** The last `w` entries of the row's present owner, oldest first, blank where there is none. */
    method GetWindow(row: nat) returns (window: seq<Entry<D>>)
      requires Valid() && row < maxRows
      ensures clean[row] ==> window == LastW(logs[row], w, Blank())
      ensures clean[row] && steps[row] >= w ==> window == logs[row][steps[row] - w..]
    {
      var pos := steps[row] % w;
      window := [];
      for k := 0 to w
        invariant |window| == k && unchanged(this)
        invariant forall j :: 0 <= j < k ==> window[j] == columns[row][(j + pos) % w]
      {
        window := window + [columns[row][(k + pos) % w]];
      }
      ReadRound(columns[row], pos, window);
      if |logs[row]| >= w { ShowsTail(logs[row], w, Blank()); }
    }
  }

  lemma NotBefore(rows: seq<nat>, i: nat)
    requires Distinct(rows) && i < |rows|
    ensures rows[i] !in rows[..i]
  {
  }

  /** Reading slots `(j + pos) % w` in turn goes round the buffer once. */
  lemma ReadRound<T>(column: seq<T>, pos: nat, window: seq<T>)
    requires pos < |column| == |window| && forall j :: 0 <= j < |column| ==> window[j] == column[(j + pos) % |column|]
    ensures window == Rotated(column, pos)
  {
    var w := |column|;
    forall j | 0 <= j < w
      ensures window[j] == Rotated(column, pos)[j]
    {
      if j + pos < w { Remainder(0, w, j + pos); } else { Remainder(1, w, j + pos - w); }
    }
  }
}
