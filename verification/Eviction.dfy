/** Which sequences of a batch end with a row when rows run out. Live sequences leave in the order
    of their age, and one that is given a row is the youngest: age is a queue. */
module Eviction {
  import opened Rows
  import opened StepEnd

  // ---- the queue ----

  /** Live sequences, oldest first, and the number of free rows. */
  datatype Queue = Queue(live: seq<int>, free: nat)

  function Visit(q: Queue, sid: int): Queue {
    if sid in q.live then q
    else if q.free > 0 then Queue(q.live + [sid], q.free - 1)
    else if q.live == [] then q
    else Queue(q.live[1..] + [sid], 0)
  }

  function VisitAll(q: Queue, sids: seq<int>): Queue {
    if sids == [] then q else Visit(VisitAll(q, sids[..|sids| - 1]), sids[|sids| - 1])
  }

  // ---- the condition, from ranks alone ----

  /** The place of `sid` in the queue, its length if absent. */
  function Rank(live: seq<int>, sid: int): (r: nat)
    ensures r <= |live| && (r < |live| ==> live[r] == sid) && (r == |live| <==> sid !in live)
  {
    if live == [] then 0 else if live[0] == sid then 0 else 1 + Rank(live[1..], sid)
  }

  function Beyond(n: nat, free: nat): nat { if n <= free then 0 else n - free }

  /** A sequence listed when `n` rows have been taken takes one too, unless it is live and its rank
      has not been reached. */
  predicate Takes(q: Queue, n: nat, sid: int) {
    Rank(q.live, sid) < Beyond(n, q.free) || Rank(q.live, sid) == |q.live|
  }

  /** How many rows the batch takes. */
  function Admissions(q: Queue, sids: seq<int>): nat {
    if sids == [] then 0
    else
      var n := Admissions(q, sids[..|sids| - 1]);
      if Takes(q, n, sids[|sids| - 1]) then n + 1 else n
  }

  /** Those beyond the free rows evict. */
  function Evictions(q: Queue, sids: seq<int>): nat { Beyond(Admissions(q, sids), q.free) }

  /** No more evictions than sequences were live, and no live listed one evicted after its turn. */
  ghost predicate Served(q: Queue, sids: seq<int>) {
    Evictions(q, sids) <= |q.live|
    && forall j :: 0 <= j < |sids| && sids[j] in q.live ==>
         Rank(q.live, sids[j]) < Evictions(q, sids[..j]) || Evictions(q, sids) <= Rank(q.live, sids[j])
  }

  /** The listed sequences that take a row, in order. */
  function Admitted(q: Queue, sids: seq<int>): (r: seq<int>)
    ensures |r| == Admissions(q, sids)
  {
    if sids == [] then []
    else
      var front, sid := sids[..|sids| - 1], sids[|sids| - 1];
      if Takes(q, Admissions(q, front), sid) then Admitted(q, front) + [sid] else Admitted(q, front)
  }

  lemma {:induction false} AdmittedListed(q: Queue, sids: seq<int>, sid: int)
    ensures sid in Admitted(q, sids) ==> sid in sids
  {
    hide Takes;
    if sids != [] {
      var k := |sids| - 1;
      assert sids == sids[..k] + [sids[k]];
      AdmittedListed(q, sids[..k], sid);
    }
  }

  lemma {:induction false} AdmittedAre(q: Queue, sids: seq<int>, j: nat)
    requires DistinctIds(sids) && j < |sids|
    ensures sids[j] in Admitted(q, sids) <==> Takes(q, Admissions(q, sids[..j]), sids[j])
  {
    hide Takes;
    var k := |sids| - 1;
    LastIsFresh(sids);
    if j < k {
      assert sids[..k][..j] == sids[..j] && sids[..k][j] == sids[j];
      AdmittedAre(q, sids[..k], j);
    } else {
      AdmittedListed(q, sids[..k], sids[k]);
    }
  }

  lemma LastIsFresh(sids: seq<int>)
    requires DistinctIds(sids) && sids != []
    ensures sids[|sids| - 1] !in sids[..|sids| - 1] && DistinctIds(sids[..|sids| - 1])
  {
  }

  lemma {:induction false} AdmittedDistinct(q: Queue, sids: seq<int>)
    requires DistinctIds(sids)
    ensures DistinctIds(Admitted(q, sids))
  {
    hide Takes;
    if sids != [] {
      var k := |sids| - 1;
      LastIsFresh(sids);
      AdmittedDistinct(q, sids[..k]);
      AdmittedListed(q, sids[..k], sids[k]);
    }
  }

  lemma RankFrom(live: seq<int>, e: nat, sid: int)
    requires DistinctIds(live) && e <= |live|
    ensures sid in live[e..] <==> e <= Rank(live, sid) < |live|
  {
    var r := Rank(live, sid);
    if e <= r < |live| { assert live[e..][r - e] == sid; }
    if sid in live[e..] {
      var i :| 0 <= i < |live[e..]| && live[e..][i] == sid;
      assert live[e + i] == sid && sid in live && r == e + i;
    }
  }

  /** Up to the number of live sequences, evictions eat into them and the admitted queue up behind. */
  lemma {:induction false} QueueShape(q: Queue, sids: seq<int>)
    requires DistinctIds(q.live) && DistinctIds(sids) && Evictions(q, sids) <= |q.live|
    ensures var a := Admissions(q, sids);
            VisitAll(q, sids) == Queue(q.live[Evictions(q, sids)..] + Admitted(q, sids), if a <= q.free then q.free - a else 0)
  {
    hide Rank, Visit, Takes, Admissions, Admitted, DistinctIds;
    if sids == [] {
      NobodyYet(q);
    } else {
      var k := |sids| - 1;
      var front, sid := sids[..k], sids[k];
      LastIsFresh(sids);
      LastTaken(q, sids);
      QueueShape(q, front);
      AdmittedListed(q, front, sid);
      VisitShape(q.live[Evictions(q, front)..], Admitted(q, front), VisitAll(q, front).free, sid);
    }
  }

  lemma NobodyYet(q: Queue)
    ensures Admissions(q, []) == 0 && Admitted(q, []) == [] && q.live[0..] + [] == q.live
  {
  }

  /** What the last listed sequence adds, and how it finds the queue. */
  lemma LastTaken(q: Queue, sids: seq<int>)
    requires DistinctIds(q.live) && sids != []
    ensures var front, sid := sids[..|sids| - 1], sids[|sids| - 1];
            var n := Admissions(q, front);
            if Takes(q, n, sid) then Admissions(q, sids) == n + 1 && Admitted(q, sids) == Admitted(q, front) + [sid]
            else Admissions(q, sids) == n && Admitted(q, sids) == Admitted(q, front)
    ensures var front, sid := sids[..|sids| - 1], sids[|sids| - 1];
            var e := Evictions(q, front);
            (e <= |q.live| ==> (sid in q.live[e..] <==> !Takes(q, Admissions(q, front), sid)))
            && (e < |q.live| ==> q.live[e..][1..] == q.live[e + 1..])
  {
    var e := Evictions(q, sids[..|sids| - 1]);
    if e <= |q.live| { RankFrom(q.live, e, sids[|sids| - 1]); }
  }

  lemma VisitShape(live: seq<int>, admitted: seq<int>, free: nat, sid: int)
    requires sid !in admitted
    ensures var t := Visit(Queue(live + admitted, free), sid);
            t == if sid in live then Queue(live + admitted, free)
                 else if free > 0 then Queue(live + (admitted + [sid]), free - 1)
                 else if live != [] then Queue(live[1..] + (admitted + [sid]), 0)
                 else if admitted == [] then Queue([], 0)
                 else Queue(admitted[1..] + [sid], 0)
  {
    assert sid in live + admitted <==> sid in live;
    assert (live + admitted) + [sid] == live + (admitted + [sid]);
    if live != [] {
      assert (live + admitted)[1..] + [sid] == live[1..] + (admitted + [sid]);
    } else {
      assert live + admitted == admitted;
    }
  }

  lemma NotBack(q: Queue, sid: int, other: int)
    requires sid !in q.live && sid != other
    ensures sid !in Visit(q, other).live
  {
    if q.live != [] { assert q.live == [q.live[0]] + q.live[1..]; }
  }

  /** With more evictions than sequences were live, some listed one is left without a row. */
  lemma {:induction false} SomeoneLeftOut(q: Queue, sids: seq<int>) returns (j: nat)
    requires DistinctIds(q.live) && DistinctIds(sids) && Evictions(q, sids) > |q.live|
    ensures j < |sids| && sids[j] !in VisitAll(q, sids).live
  {
    hide Visit, Takes, Admitted, Rank;
    var k := |sids| - 1;
    var front := sids[..k];
    if Evictions(q, front) > |q.live| {
      LastIsFresh(sids);
      j := SomeoneLeftOut(q, front);
      assert sids[j] == front[j] && sids[j] != sids[k];
      NotBack(VisitAll(q, front), sids[j], sids[k]);
    } else {
      QueueShape(q, front);
      assert q.live[|q.live|..] == [];
      var admitted := Admitted(q, front);
      LastIsFresh(sids);
      AdmittedListed(q, front, sids[k]);
      VisitShape([], admitted, 0, sids[k]);
      assert [] + admitted == admitted;
      if admitted == [] {
        j := k;
      } else {
        AdmittedDistinct(q, front);
        AdmittedListed(q, front, admitted[0]);
        j :| 0 <= j < k && front[j] == admitted[0];
        HeadGone(admitted, sids[k]);
      }
    }
  }

  lemma HeadGone(admitted: seq<int>, sid: int)
    requires DistinctIds(admitted) && admitted != [] && sid !in admitted
    ensures admitted[0] !in admitted[1..] + [sid]
  {
    assert forall i :: 0 <= i < |admitted[1..]| ==> admitted[1..][i] == admitted[i + 1] != admitted[0];
  }

  /** Every listed sequence ends with a row exactly when the condition on ranks holds. */
  lemma ServedExactly(q: Queue, sids: seq<int>)
    requires DistinctIds(q.live) && DistinctIds(sids)
    ensures (forall j :: 0 <= j < |sids| ==> sids[j] in VisitAll(q, sids).live) <==> Served(q, sids)
  {
    if Evictions(q, sids) > |q.live| {
      var j := SomeoneLeftOut(q, sids);
    } else {
      QueueShape(q, sids);
      forall j | 0 <= j < |sids|
        ensures sids[j] in VisitAll(q, sids).live
                <==> !(sids[j] in q.live && Evictions(q, sids[..j]) <= Rank(q.live, sids[j]) < Evictions(q, sids))
      {
        AdmittedAre(q, sids, j);
        RankFrom(q.live, Evictions(q, sids), sids[j]);
        FewerBefore(q, sids, j);
      }
    }
  }

  lemma {:induction false} FewerBefore(q: Queue, sids: seq<int>, j: nat)
    requires j <= |sids|
    ensures Admissions(q, sids[..j]) <= Admissions(q, sids) && Evictions(q, sids[..j]) <= Evictions(q, sids)
  {
    if j < |sids| {
      var k := |sids| - 1;
      assert sids[..k][..j] == sids[..j];
      FewerBefore(q, sids[..k], j);
    } else {
      assert sids[..j] == sids;
    }
  }

  // ---- who asks for a prompt ----

  /** Every listed sequence that takes a row is among the `known` ones. */
  ghost predicate Supplied(q: Queue, sids: seq<int>, known: set<int>) {
    forall j :: 0 <= j < |sids| && Takes(q, Admissions(q, sids[..j]), sids[j]) ==> sids[j] in known
  }

  lemma SuppliedNone(q: Queue, known: set<int>)
    ensures Supplied(q, [], known)
  {
  }

  lemma SuppliedNext(q: Queue, sids: seq<int>, i: nat, known: set<int>)
    requires i < |sids|
    ensures Supplied(q, sids[..i + 1], known)
            <==> Supplied(q, sids[..i], known) && (Takes(q, Admissions(q, sids[..i]), sids[i]) ==> sids[i] in known)
    ensures Supplied(q, sids, known) ==> Supplied(q, sids[..i + 1], known)
  {
    hide Takes, Admissions;
    assert sids[..i + 1][..i] == sids[..i] && sids[..i + 1][i] == sids[i];
    forall j | 0 <= j < i
      ensures sids[..i + 1][..j] == sids[..i][..j] == sids[..j] && sids[..i + 1][j] == sids[..i][j] == sids[j]
    {
    }
  }

  /** With as many evictions as sequences were live, only listed ones are left. */
  lemma {:induction false} OnlyListed(q: Queue, sids: seq<int>)
    requires DistinctIds(q.live) && DistinctIds(sids) && Evictions(q, sids) >= |q.live|
    ensures forall a :: a in VisitAll(q, sids).live ==> a in sids
  {
    if sids == [] { return; }
    var k := |sids| - 1;
    LastIsFresh(sids);
    assert sids == sids[..k] + [sids[k]];
    if Evictions(q, sids[..k]) >= |q.live| {
      OnlyListed(q, sids[..k]);
      VisitMembers(VisitAll(q, sids[..k]), sids[k]);
    } else {
      QueueShape(q, sids);
      assert q.live[|q.live|..] == [];
      forall a | a in VisitAll(q, sids).live
        ensures a in sids
      {
        AdmittedListed(q, sids, a);
      }
    }
  }

  lemma VisitMembers(q: Queue, sid: int)
    ensures forall a :: a in Visit(q, sid).live ==> a == sid || a in q.live
  {
    if q.live != [] { assert q.live == [q.live[0]] + q.live[1..]; }
  }

  /** A listed sequence finds itself without a row exactly when it takes one. */
  lemma WithoutRow(q: Queue, sids: seq<int>, j: nat)
    requires DistinctIds(q.live) && DistinctIds(sids) && j < |sids|
    ensures sids[j] !in VisitAll(q, sids[..j]).live <==> Takes(q, Admissions(q, sids[..j]), sids[j])
  {
    hide Visit, Takes, Admissions, Admitted;
    var front, upto := sids[..j], sids[..j + 1];
    assert upto[..j] == front && upto[j] == sids[j];
    LastIsFresh(upto);
    LastTaken(q, upto);
    if Evictions(q, front) <= |q.live| {
      QueueShape(q, front);
      AdmittedListed(q, front, sids[j]);
    } else {
      OnlyListed(q, front);
      RankBelow(q, Admissions(q, front), sids[j]);
    }
  }

  lemma RankBelow(q: Queue, n: nat, sid: int)
    requires Beyond(n, q.free) > |q.live|
    ensures Takes(q, n, sid)
  {
  }

  // ---- the queue of a row manager ----

  /** The state that decides who gives way. */
  datatype Lending = Lending(rowOf: map<int, nat>, free: seq<nat>, order: map<int, nat>, next: nat, steps: seq<nat>)

  ghost predicate ValidLending(l: Lending) {
    Split(l.rowOf, l.free, |l.steps|) && Ordered(l.rowOf, l.order, l.next)
  }

  /** `live` lists the live sequences from the oldest to the youngest. */
  ghost predicate IsListing(l: Lending, live: seq<int>) {
    DistinctIds(live) && (forall a :: a in l.rowOf <==> a in live)
    && (forall a :: a in l.rowOf ==> a in l.order && l.rowOf[a] < |l.steps|)
    && forall i, j :: 0 <= i < j < |live| ==> Before(l, live[i], live[j])
  }

  predicate Before(l: Lending, a: int, b: int) {
    a in l.rowOf && b in l.rowOf && a in l.order && b in l.order && l.rowOf[a] < |l.steps| && l.rowOf[b] < |l.steps|
    && Older(l.rowOf, l.order, l.steps, a, b)
  }

  function Dropped(l: Lending, victim: int): Lending {
    if victim in l.rowOf && l.rowOf[victim] < |l.steps| then
      Lending(l.rowOf - {victim}, l.free + [l.rowOf[victim]], l.order - {victim}, l.next, l.steps[l.rowOf[victim] := 0])
    else l
  }

  function Lent(l: Lending, sid: int): Lending {
    if l.free != [] && l.free[0] < |l.steps| then
      Lending(l.rowOf[sid := l.free[0]], l.free[1..], l.order[sid := l.next], l.next + 1, l.steps[l.free[0] := 0])
    else l
  }

  /** What asking for one row does. */
  ghost predicate Asked(l: Lending, t: Lending, sid: int) {
    if sid in l.rowOf then t == l
    else if l.free != [] then t == Lent(l, sid)
    else if l.rowOf == map[] then t == l
    else exists victim :: Oldest(l.rowOf, l.order, l.steps, victim, l.rowOf.Keys) && t == Lent(Dropped(l, victim), sid)
  }

  lemma DropValid(l: Lending, victim: int)
    requires ValidLending(l) && victim in l.rowOf
    ensures ValidLending(Dropped(l, victim)) && Dropped(l, victim).free == l.free + [l.rowOf[victim]]
  {
    TakeBack(l.rowOf, l.free, |l.steps|, victim);
    hide Split;
    RowInRange(l, victim);
  }

  lemma RowInRange(l: Lending, a: int)
    requires ValidLending(l) && a in l.rowOf
    ensures l.rowOf[a] < |l.steps| && a in l.order && l.order[a] < l.next
    ensures forall b :: b in l.rowOf && b != a ==> l.rowOf[b] != l.rowOf[a]
    ensures l.free != [] ==> l.free[0] < |l.steps| && l.rowOf[a] != l.free[0]
  {
    assert l.free != [] ==> l.free[0] in l.free;
  }

  lemma LendValid(l: Lending, sid: int)
    requires ValidLending(l) && sid !in l.rowOf && l.free != []
    ensures ValidLending(Lent(l, sid)) && l.free[0] < |l.steps|
  {
    Lend(l.rowOf, l.free, |l.steps|, sid);
    assert l.free[0] in l.free;
    hide Split;
  }

  /** The sequence that gives way is the head of the queue. */
  lemma OldestIsHead(l: Lending, live: seq<int>, victim: int)
    requires IsListing(l, live) && Oldest(l.rowOf, l.order, l.steps, victim, l.rowOf.Keys)
    ensures live != [] && live[0] == victim
  {
    assert victim in live && live[0] in live;
    forall i | 0 < i < |live|
      ensures live[i] != victim
    {
      assert Before(l, live[0], live[i]) && live[0] != live[i];
    }
  }

  lemma BeforeDropped(l: Lending, victim: int, a: int, b: int)
    requires ValidLending(l) && victim in l.rowOf && Before(l, a, b) && a != victim && b != victim
    ensures Before(Dropped(l, victim), a, b)
  {
    RowInRange(l, victim);
  }

  lemma HeadDropped(l: Lending, live: seq<int>)
    requires ValidLending(l) && IsListing(l, live) && live != []
    ensures IsListing(Dropped(l, live[0]), live[1..])
  {
    hide Before, ValidLending;
    var t, rest := Dropped(l, live[0]), live[1..];
    assert live == [live[0]] + rest;
    assert live[0] in live;
    RowInRange(l, live[0]);
    assert forall i :: 0 <= i < |rest| ==> rest[i] == live[i + 1] != live[0];
    forall i, j | 0 <= i < j < |rest|
      ensures Before(t, rest[i], rest[j])
    {
      assert Before(l, live[i + 1], live[j + 1]);
      BeforeDropped(l, live[0], live[i + 1], live[j + 1]);
    }
  }

  lemma NewAtEnd(l: Lending, live: seq<int>, sid: int)
    requires ValidLending(l) && IsListing(l, live) && sid !in l.rowOf && l.free != []
    ensures IsListing(Lent(l, sid), live + [sid])
  {
    LendValid(l, sid);
    var t, all := Lent(l, sid), live + [sid];
    hide Split;
    forall a | a in l.rowOf
      ensures t.rowOf[a] == l.rowOf[a] != l.free[0] && t.order[a] == l.order[a] < l.next && l.rowOf[a] < |l.steps|
    {
      RowInRange(l, a);
    }
    forall i, j | 0 <= i < j < |all|
      ensures Before(t, all[i], all[j])
    {
      assert all[i] == live[i] && live[i] in live;
      if j < |live| { assert Before(l, live[i], live[j]) && live[j] in live; }
    }
  }

  lemma HasMember(live: seq<int>)
    ensures live == [] || exists a :: a in live
  {
    if live != [] {
      var a := live[0];
      assert a in live;
    }
  }

  /** Asking for a row is a visit to the queue. */
  lemma AskingVisits(l: Lending, t: Lending, live: seq<int>, sid: int)
    requires ValidLending(l) && IsListing(l, live) && Asked(l, t, sid)
    ensures var q := Visit(Queue(live, |l.free|), sid);
            ValidLending(t) && IsListing(t, q.live) && |t.free| == q.free
  {
    hide Split, Ordered, Oldest, Before;
    assert sid in live <==> sid in l.rowOf;
    assert l.rowOf == map[] || l.rowOf.Keys != {};
    if sid !in l.rowOf {
      if l.free != [] {
        LendValid(l, sid);
        NewAtEnd(l, live, sid);
      } else if l.rowOf == map[] {
        HasMember(live);
      } else {
        var victim :| Oldest(l.rowOf, l.order, l.steps, victim, l.rowOf.Keys) && t == Lent(Dropped(l, victim), sid);
        OldestIsHead(l, live, victim);
        assert live[0] in live;
        HeadDropped(l, live);
        DropValid(l, victim);
        LendValid(Dropped(l, victim), sid);
        NewAtEnd(Dropped(l, victim), live[1..], sid);
      }
    }
  }

  // ---- there is one listing ----

  /** Some live sequences, each older than the next. */
  ghost predicate Aged(l: Lending, live: seq<int>) {
    (forall i :: 0 <= i < |live| ==> live[i] in l.rowOf)
    && forall i, j :: 0 <= i < j < |live| ==> live[i] != live[j] && Before(l, live[i], live[j])
  }

  lemma AgesOrdered(l: Lending, a: int, b: int, c: int)
    requires ValidLending(l) && a in l.rowOf && b in l.rowOf
    ensures a != b ==> (Before(l, a, b) <==> !Before(l, b, a))
    ensures Before(l, a, b) && Before(l, b, c) ==> Before(l, a, c)
  {
    RowInRange(l, a);
    RowInRange(l, b);
  }

  function InsertByAge(l: Lending, live: seq<int>, a: int): (r: seq<int>)
    ensures |r| == |live| + 1 && forall x :: x in r <==> x == a || x in live
  {
    if live == [] then [a]
    else if Before(l, a, live[0]) then [a] + live
    else
      assert live == [live[0]] + live[1..];
      [live[0]] + InsertByAge(l, live[1..], a)
  }

  lemma {:induction false} InsertAged(l: Lending, live: seq<int>, a: int)
    requires ValidLending(l) && Aged(l, live) && a in l.rowOf && a !in live
    ensures Aged(l, InsertByAge(l, live, a))
  {
    hide ValidLending, Before;
    if live != [] {
      var head, rest := live[0], live[1..];
      assert live == [head] + rest;
      assert head in live;
      AgesOrdered(l, a, head, head);
      if Before(l, a, head) {
        forall j | 0 <= j < |live| ensures Before(l, a, live[j]) {
          if j > 0 { AgesOrdered(l, a, head, live[j]); }
        }
        AgedCons(l, a, live);
      } else {
        assert forall j :: 0 <= j < |rest| ==> rest[j] == live[j + 1];
        InsertAged(l, rest, a);
        var r := InsertByAge(l, rest, a);
        forall j | 0 <= j < |r| ensures head != r[j] && Before(l, head, r[j]) {
          assert r[j] in r;
          if r[j] != a {
            var i :| 0 <= i < |rest| && rest[i] == r[j];
            assert Before(l, live[0], live[i + 1]);
          }
        }
        AgedCons(l, head, r);
      }
    }
  }

  lemma NoneAged(l: Lending)
    ensures Aged(l, [])
  {
  }

  lemma AgedCons(l: Lending, a: int, live: seq<int>)
    requires Aged(l, live) && a in l.rowOf && forall j :: 0 <= j < |live| ==> a != live[j] && Before(l, a, live[j])
    ensures Aged(l, [a] + live)
  {
    var r := [a] + live;
    forall i, j | 0 <= i < j < |r|
      ensures r[i] != r[j] && Before(l, r[i], r[j])
    {
      if i > 0 { assert r[i] == live[i - 1] && r[j] == live[j - 1]; }
    }
  }

  lemma {:induction false} AgedListing(l: Lending, keys: set<int>) returns (live: seq<int>)
    requires ValidLending(l) && keys <= l.rowOf.Keys
    ensures Aged(l, live) && forall a :: a in live <==> a in keys
    decreases |keys|
  {
    if keys == {} {
      live := [];
    } else {
      HasElement(keys);
      var a :| a in keys;
      live := AgedListing(l, keys - {a});
      InsertAged(l, live, a);
      live := InsertByAge(l, live, a);
    }
  }

  /** There is a listing of the live sequences. */
  lemma ListingExists(l: Lending) returns (live: seq<int>)
    requires ValidLending(l)
    ensures IsListing(l, live)
  {
    live := AgedListing(l, l.rowOf.Keys);
    forall a | a in l.rowOf
      ensures a in l.order && l.rowOf[a] < |l.steps|
    {
      RowInRange(l, a);
    }
  }

  lemma {:induction false} AgedUnique(l: Lending, live: seq<int>, other: seq<int>)
    requires ValidLending(l) && Aged(l, live) && Aged(l, other) && forall a :: a in live <==> a in other
    ensures live == other
  {
    hide ValidLending, Before;
    if live == [] {
      HasMember(other);
    } else {
      var a := live[0];
      assert a in live && a in other;
      var i :| 0 <= i < |other| && other[i] == a;
      var b := other[0];
      assert b in other && b in live;
      var j :| 0 <= j < |live| && live[j] == b;
      AgesOrdered(l, live[0], other[0], other[0]);
      HeadIsFirst(l, other);
      HeadIsFirst(l, live);
      assert i == 0;
      TailMembers(l, live);
      TailMembers(l, other);
      AgedUnique(l, live[1..], other[1..]);
      assert live == [live[0]] + live[1..] && other == [other[0]] + other[1..];
    }
  }

  lemma HeadIsFirst(l: Lending, live: seq<int>)
    requires Aged(l, live)
    ensures forall i :: 0 < i < |live| ==> Before(l, live[0], live[i]) && live[0] != live[i]
  {
  }

  lemma TailMembers(l: Lending, live: seq<int>)
    requires Aged(l, live) && live != []
    ensures Aged(l, live[1..]) && forall a :: a in live[1..] <==> a in live && a != live[0]
  {
    assert live == [live[0]] + live[1..];
    assert forall i :: 0 <= i < |live[1..]| ==> live[1..][i] == live[i + 1] != live[0];
  }

  /** And only one. */
  lemma ListingUnique(l: Lending, live: seq<int>, other: seq<int>)
    requires ValidLending(l) && IsListing(l, live) && IsListing(l, other)
    ensures live == other && DistinctIds(live)
  {
    assert forall i :: 0 <= i < |live| ==> live[i] in live;
    assert forall i :: 0 <= i < |other| ==> other[i] in other;
    AgedUnique(l, live, other);
  }

  /** The listed sequences end live exactly when they are served. */
  lemma ListedExactly(l: Lending, q: Queue, sids: seq<int>)
    requires DistinctIds(sids) && DistinctIds(q.live) && IsListing(l, VisitAll(q, sids).live)
    ensures (forall j :: 0 <= j < |sids| ==> sids[j] in l.rowOf) <==> Served(q, sids)
  {
    hide Served, Before;
    ServedExactly(q, sids);
    forall j | 0 <= j < |sids|
      ensures sids[j] in l.rowOf <==> sids[j] in VisitAll(q, sids).live
    {
      var a := sids[j];
      assert a in l.rowOf <==> a in VisitAll(q, sids).live;
    }
  }

  // ---- a listed sequence that loses its row ----

  /** Two rows, two listed sequences, one of them live with many steps: it is evicted to make room
      for the other, while a sequence outside the batch keeps its row. */
  lemma ListedOneEvicted()
    ensures var l := Lending(map[7 := 0, 5 := 1], [], map[7 := 0, 5 := 1], 2, [9, 1]);
            ValidLending(l) && IsListing(l, [7, 5])
            && VisitAll(Queue([7, 5], 0), [7, 8]).live == [5, 8] && !Served(Queue([7, 5], 0), [7, 8])
  {
    hide Split, Ordered, Before, Visit, VisitAll, Served, Admissions, Rank;
    TwoLive();
    SevenLeaves();
  }

  lemma TwoLive()
    ensures var l := Lending(map[7 := 0, 5 := 1], [], map[7 := 0, 5 := 1], 2, [9, 1]);
            ValidLending(l) && IsListing(l, [7, 5])
  {
    var l := Lending(map[7 := 0, 5 := 1], [], map[7 := 0, 5 := 1], 2, [9, 1]);
    assert l.rowOf[7] == 0 && l.rowOf[5] == 1;
  }

  lemma TwoDistinct(a: int, b: int)
    requires a != b
    ensures DistinctIds([a, b])
  {
  }

  lemma SevenLeaves()
    ensures VisitAll(Queue([7, 5], 0), [7, 8]).live == [5, 8] && !Served(Queue([7, 5], 0), [7, 8])
  {
    hide Served, Admissions, Rank;
    var q := Queue([7, 5], 0);
    TwoDistinct(7, 5);
    TwoDistinct(7, 8);
    assert [7, 8][..1] == [7] && [7][..0] == [];
    assert VisitAll(q, [7]) == q;
    assert [7, 5][1..] == [5] && [5] + [8] == [5, 8];
    ServedExactly(q, [7, 8]);
    assert [7, 8][0] == 7;
  }

  /** On the same rows, prompts for the listed sequences without a row are not enough: `7`, listed
      after `8`, is gone by its turn. */
  lemma PromptMissing()
    ensures VisitAll(Queue([7, 5], 0), [8]).live == [5, 8]
    ensures !Supplied(Queue([7, 5], 0), [8, 7], {8}) && Supplied(Queue([7, 5], 0), [8, 7], {7, 8})
  {
    hide Takes, Admissions;
    var q := Queue([7, 5], 0);
    TwoDistinct(7, 5);
    TwoDistinct(8, 7);
    assert [8, 7][..1] == [8] && [8][..0] == [];
    assert VisitAll(q, []) == q;
    assert [7, 5][1..] == [5] && [5] + [8] == [5, 8];
    WithoutRow(q, [8, 7], 1);
    assert [8, 7][1] == 7;
  }
}
