/** The table mirrors the queues, and a restart rebuilds them. */
module DlrPersistMirror {
  import opened Wrappers
  import Q = DlrQueue
  import opened DlrPersist

  /** The rows of each client are its queue, in order. */
  ghost predicate Mirror(s: Store) {
    forall c: int :: RowsOf(s.table, c) == Get(s.queues, c)
  }

  /** Rows are in strictly increasing creation order. */
  ghost predicate Sorted(table: seq<DbRow>) {
    forall i, j :: 0 <= i < j < |table| ==> table[i].createdAt < table[j].createdAt
  }

  ghost predicate OlderThan(table: seq<DbRow>, at: int) {
    forall i :: 0 <= i < |table| ==> table[i].createdAt < at
  }

  /** The database clock moves on between the inserts of one run. */
  ghost predicate Timely(s: Store, e: Event) {
    WellTimed(e) && match e
      case Enqueue(_, _, now) => OlderThan(s.table, now)
      case Requeue(_, _, times) =>
        && (forall i :: 0 <= i < |times| ==> OlderThan(s.table, times[i]))
        && (forall i, j :: 0 <= i < j < |times| ==> times[i] < times[j])
      case DequeueAll(_) => true
  }

  function Last(q: seq<Dlr>, n: nat): seq<Dlr> {
    if |q| <= n then q else q[|q| - n..]
  }

  // ---- what each statement does to the rows of each client ----

  lemma RowsOfCons(r: DbRow, rest: seq<DbRow>, c: int)
    ensures RowsOf([r] + rest, c) == if r.clientId == c then [r.dlr] + RowsOf(rest, c) else RowsOf(rest, c)
  {
    assert ([r] + rest)[1..] == rest;
  }

  lemma {:induction false} RowsOfAppend(a: seq<DbRow>, r: DbRow, c: int)
    ensures RowsOf(a + [r], c) == if r.clientId == c then RowsOf(a, c) + [r.dlr] else RowsOf(a, c)
  {
    if a == [] {
      assert a + [r] == [r] + [];
      RowsOfCons(r, [], c);
    } else {
      assert a + [r] == [a[0]] + (a[1..] + [r]) && a == [a[0]] + a[1..];
      RowsOfAppend(a[1..], r, c);
      RowsOfCons(a[0], a[1..] + [r], c);
      RowsOfCons(a[0], a[1..], c);
    }
  }

  lemma SortedCons(r: DbRow, rest: seq<DbRow>)
    requires Sorted(rest) && forall x :: x in rest ==> r.createdAt < x.createdAt
    ensures Sorted([r] + rest)
  {
  }

  lemma HeadOldest(table: seq<DbRow>)
    requires Sorted(table) && table != []
    ensures Sorted(table[1..]) && forall x :: x in table[1..] ==> table[0].createdAt < x.createdAt
  {
    forall x | x in table[1..]
      ensures table[0].createdAt < x.createdAt
    {
      var i :| 0 <= i < |table| - 1 && table[1..][i] == x;
      assert table[i + 1] == x;
    }
  }

  lemma {:induction false} NewerIsSuffix(table: seq<DbRow>, c: int, i: nat)
    requires Sorted(table) && i < |table|
    ensures Newer(table, c, table[i].createdAt) == |RowsOf(table[i + 1..], c)|
    decreases |table|
  {
    if i > 0 {
      assert table[1..][i - 1] == table[i] && table[1..][i..] == table[i + 1..];
      NewerIsSuffix(table[1..], c, i - 1);
    } else {
      AllNewer(table[1..], c, table[0].createdAt);
    }
  }

  lemma {:induction false} AllNewer(table: seq<DbRow>, c: int, at: int)
    requires forall i :: 0 <= i < |table| ==> table[i].createdAt > at
    ensures Newer(table, c, at) == |RowsOf(table, c)|
  {
    if table != [] { AllNewer(table[1..], c, at); }
  }

  /** Pruning keeps the last 1000 rows of its client, and every other client's rows. */
  lemma {:induction false} PruneFrom(table: seq<DbRow>, c: int, i: nat, d: int)
    requires Sorted(table) && i <= |table|
    ensures var r := KeepNewestFrom(table[i..], table, c);
            RowsOf(r, d) == if d == c then Last(RowsOf(table[i..], c), Q.MAX_DLR_QUEUE_PER_CLIENT) else RowsOf(table[i..], d)
    decreases |table| - i
  {
    if i < |table| {
      hide RowsOf, Newer;
      var row, tail := table[i], table[i + 1..];
      var rest := KeepNewestFrom(tail, table, c);
      assert table[i..] == [row] + tail && table[i..][1..] == tail;
      PruneFrom(table, c, i + 1, d);
      NewerIsSuffix(table, c, i);
      RowsOfCons(row, tail, d);
      RowsOfCons(row, rest, d);
      if row.clientId == c && |RowsOf(tail, c)| >= Q.MAX_DLR_QUEUE_PER_CLIENT {
        assert KeepNewestFrom(table[i..], table, c) == rest;
      } else {
        assert KeepNewestFrom(table[i..], table, c) == [row] + rest;
      }
    }
  }

  lemma {:induction false} PruneSorted(part: seq<DbRow>, table: seq<DbRow>, c: int)
    requires Sorted(part)
    ensures Sorted(KeepNewestFrom(part, table, c))
    ensures forall r :: r in KeepNewestFrom(part, table, c) ==> r in part
  {
    if part != [] {
      var rest := KeepNewestFrom(part[1..], table, c);
      HeadOldest(part);
      PruneSorted(part[1..], table, c);
      SortedCons(part[0], rest);
      assert KeepNewestFrom(part, table, c) == [part[0]] + rest || KeepNewestFrom(part, table, c) == rest;
    }
  }

  lemma {:induction false} DeleteRows(table: seq<DbRow>, c: int, ids: seq<string>, d: int)
    requires forall r :: r in table && r.clientId == c ==> r.dlr.messageId in ids
    ensures RowsOf(Deleted(table, c, ids), d) == if d == c then [] else RowsOf(table, d)
  {
    if table != [] {
      var rest := Deleted(table[1..], c, ids);
      assert table == [table[0]] + table[1..] && table[0] in table;
      DeleteRows(table[1..], c, ids, d);
      RowsOfCons(table[0], rest, d);
      RowsOfCons(table[0], table[1..], d);
      assert Deleted(table, c, ids) == if table[0].clientId == c then rest else [table[0]] + rest;
    }
  }

  lemma {:induction false} DeleteSorted(table: seq<DbRow>, c: int, ids: seq<string>)
    requires Sorted(table)
    ensures Sorted(Deleted(table, c, ids))
    ensures forall r :: r in Deleted(table, c, ids) ==> r in table
  {
    if table != [] {
      var rest := Deleted(table[1..], c, ids);
      HeadOldest(table);
      DeleteSorted(table[1..], c, ids);
      SortedCons(table[0], rest);
      assert Deleted(table, c, ids) == [table[0]] + rest || Deleted(table, c, ids) == rest;
    }
  }

  lemma {:induction false} RowIsOf(table: seq<DbRow>, r: DbRow)
    requires r in table
    ensures r.dlr in RowsOf(table, r.clientId)
  {
    if table[0] != r { RowIsOf(table[1..], r); }
  }

  lemma InsertSorted(table: seq<DbRow>, r: DbRow, times: seq<int>)
    requires Sorted(table) && OlderThan(table, r.createdAt)
    requires forall i :: 0 <= i < |times| ==> OlderThan(table, times[i]) && r.createdAt < times[i]
    ensures Sorted(table + [r])
    ensures forall i :: 0 <= i < |times| ==> OlderThan(table + [r], times[i])
  {
  }

  lemma {:induction false} PersistRows(table: seq<DbRow>, c: int, dlrs: seq<Dlr>, times: seq<int>, d: int)
    requires |dlrs| == |times| && Sorted(table)
    requires forall i :: 0 <= i < |times| ==> OlderThan(table, times[i])
    requires forall i, j :: 0 <= i < j < |times| ==> times[i] < times[j]
    ensures RowsOf(PersistedAll(table, c, dlrs, times), d) == RowsOf(table, d) + if d == c then dlrs else []
    ensures Sorted(PersistedAll(table, c, dlrs, times))
    decreases |dlrs|
  {
    if dlrs == [] {
      assert RowsOf(table, d) + [] == RowsOf(table, d);
    } else {
      hide RowsOf, Sorted, OlderThan, KeepNewestFrom;
      var r := DbRow(c, dlrs[0], times[0]);
      RowsOfAppend(table, r, d);
      InsertSorted(table, r, times[1..]);
      PersistRows(table + [r], c, dlrs[1..], times[1..], d);
      AppendRest(RowsOf(table, d), dlrs);
    }
  }

  lemma AppendRest(before: seq<Dlr>, dlrs: seq<Dlr>)
    requires dlrs != []
    ensures before + [dlrs[0]] + dlrs[1..] == before + dlrs
  {
  }

  // ---- every call ----

  /** An enqueue appends to its client's rows, and prunes them when memory dropped its oldest. */
  lemma EnqueueRows(s: Store, e: Event, d: int)
    requires e.Enqueue? && Sorted(s.table) && Timely(s, e)
    ensures var rows := RowsOf(s.table, d);
            RowsOf(Step(s, e).table, d) ==
            if d != e.clientId then rows
            else if |Get(s.queues, e.clientId)| >= Q.MAX_DLR_QUEUE_PER_CLIENT
                 then Last(rows + [e.dlr], Q.MAX_DLR_QUEUE_PER_CLIENT)
            else rows + [e.dlr]
  {
    hide RowsOf;
    var r := DbRow(e.clientId, e.dlr, e.now);
    var t := s.table + [r];
    RowsOfAppend(s.table, r, d);
    InsertSorted(s.table, r, []);
    assert t[0..] == t;
    PruneFrom(t, e.clientId, 0, d);
  }

  lemma EnqueueSorted(s: Store, e: Event)
    requires e.Enqueue? && Sorted(s.table) && Timely(s, e)
    ensures Sorted(Step(s, e).table)
  {
    var r := DbRow(e.clientId, e.dlr, e.now);
    InsertSorted(s.table, r, []);
    PruneSorted(s.table + [r], s.table + [r], e.clientId);
  }

  lemma NoMembers(rows: seq<Dlr>, q: seq<Dlr>)
    requires |q| == 0 && forall x :: x in rows ==> x in q
    ensures rows == []
  {
    if |rows| > 0 { FirstIsMember(rows); }
  }

  lemma FirstIsMember(rows: seq<Dlr>)
    requires |rows| > 0
    ensures exists x :: x in rows
  {
    assert rows[0] in rows;
  }

  /** When the stored receipts are among the queued ones, a dequeue empties both. */
  lemma DequeueRows(s: Store, e: Event, d: int)
    requires e.DequeueAll? && WellTimed(e) && Sorted(s.table)
    requires forall x :: x in RowsOf(s.table, e.clientId) ==> x in Get(s.queues, e.clientId)
    ensures RowsOf(Step(s, e).table, d) == if d == e.clientId then [] else RowsOf(s.table, d)
    ensures Sorted(Step(s, e).table)
  {
    var c, q := e.clientId, Get(s.queues, e.clientId);
    forall r | r in s.table && r.clientId == c
      ensures r.dlr.messageId in MessageIds(q)
    {
      RowIsOf(s.table, r);
      var i :| 0 <= i < |q| && q[i] == r.dlr;
      assert MessageIds(q)[i] == r.dlr.messageId;
    }
    hide RowsOf;
    if |q| > 0 {
      DeleteRows(s.table, c, MessageIds(q), d);
      DeleteSorted(s.table, c, MessageIds(q));
    } else {
      NoMembers(RowsOf(s.table, c), q);
    }
  }

  lemma RequeueRows(s: Store, e: Event, d: int)
    requires e.Requeue? && Sorted(s.table) && Timely(s, e)
    ensures RowsOf(Step(s, e).table, d) == RowsOf(s.table, d) + if d == e.clientId then e.dlrs else []
    ensures Sorted(Step(s, e).table)
  {
    hide RowsOf;
    PersistRows(s.table, e.clientId, e.dlrs, e.times, d);
    if |e.dlrs| == 0 {
      assert RowsOf(s.table, d) + [] == RowsOf(s.table, d);
    }
  }

  lemma EnqueueMirrors(s: Store, e: Event)
    requires e.Enqueue? && Mirror(s) && Sorted(s.table) && Timely(s, e)
    ensures Mirror(Step(s, e)) <==> |Get(s.queues, e.clientId)| <= Q.MAX_DLR_QUEUE_PER_CLIENT
  {
    hide RowsOf;
    var c, q, s' := e.clientId, Get(s.queues, e.clientId), Step(s, e);
    assert RowsOf(s.table, c) == q;
    if |q| <= Q.MAX_DLR_QUEUE_PER_CLIENT {
      forall d: int
        ensures RowsOf(s'.table, d) == Get(s'.queues, d)
      {
        assert RowsOf(s.table, d) == Get(s.queues, d);
        EnqueueRows(s, e, d);
      }
    } else {
      EnqueueRows(s, e, c);
      assert |RowsOf(s'.table, c)| != |Get(s'.queues, c)|;
    }
  }

  lemma DequeueMirrors(s: Store, e: Event)
    requires e.DequeueAll? && Mirror(s) && Sorted(s.table)
    ensures Mirror(Step(s, e)) && Sorted(Step(s, e).table)
  {
    hide RowsOf;
    assert RowsOf(s.table, e.clientId) == Get(s.queues, e.clientId);
    forall d: int
      ensures RowsOf(Step(s, e).table, d) == Get(Step(s, e).queues, d)
    {
      assert RowsOf(s.table, d) == Get(s.queues, d);
      DequeueRows(s, e, d);
    }
    DequeueRows(s, e, 0);
  }

  lemma RequeueMirrors(s: Store, e: Event)
    requires e.Requeue? && Mirror(s) && Sorted(s.table) && Timely(s, e)
    ensures Mirror(Step(s, e)) && Sorted(Step(s, e).table)
  {
    hide RowsOf;
    forall d: int
      ensures RowsOf(Step(s, e).table, d) == Get(Step(s, e).queues, d)
    {
      assert RowsOf(s.table, d) == Get(s.queues, d);
      RequeueRows(s, e, d);
    }
    RequeueRows(s, e, 0);
  }

  /** A call keeps the mirror exactly when it is not an enqueue to a queue over the cap. */
  lemma StepMirrors(s: Store, e: Event)
    requires Mirror(s) && Sorted(s.table) && Timely(s, e)
    ensures Sorted(Step(s, e).table)
    ensures Mirror(Step(s, e)) <==> (e.Enqueue? ==> |Get(s.queues, e.clientId)| <= Q.MAX_DLR_QUEUE_PER_CLIENT)
  {
    match e
    case Enqueue(_, _, _) =>
      EnqueueSorted(s, e);
      EnqueueMirrors(s, e);
    case DequeueAll(_) => DequeueMirrors(s, e);
    case Requeue(_, _, _) => RequeueMirrors(s, e);
  }

  // ---- whole runs ----

  /** Inserts are timely, and no requeue passes the cap. */
  ghost predicate Regular(events: seq<Event>) {
    && AllWellTimed(events)
    && (events != [] ==>
          var before, e := events[..|events| - 1], events[|events| - 1];
          && Regular(before)
          && Timely(Run(before), e)
          && (e.Requeue? ==> |Get(Run(before).queues, e.clientId)| + |e.dlrs| <= Q.MAX_DLR_QUEUE_PER_CLIENT))
  }

  /** After every regular run the rows are the queues, in order, and no queue is over the cap. */
  lemma {:induction false} TableMirrorsQueues(events: seq<Event>)
    requires Regular(events)
    ensures Mirror(Run(events)) && Sorted(Run(events).table)
    ensures forall c: int :: |Get(Run(events).queues, c)| <= Q.MAX_DLR_QUEUE_PER_CLIENT
    decreases |events|
  {
    if events != [] {
      var before, e := events[..|events| - 1], events[|events| - 1];
      TableMirrorsQueues(before);
      StepMirrors(Run(before), e);
      forall c: int
        ensures |Get(Run(events).queues, c)| <= Q.MAX_DLR_QUEUE_PER_CLIENT
      {
        assert |Get(Run(before).queues, c)| <= Q.MAX_DLR_QUEUE_PER_CLIENT;
        assert |Get(Run(before).queues, e.clientId)| <= Q.MAX_DLR_QUEUE_PER_CLIENT;
      }
    }
  }

  // ---- restart ----

  lemma InsertHere(r: DbRow, rows: seq<DbRow>)
    requires |rows| == 0 || Before(r, rows[0])
    ensures InsertRow(r, rows) == [r] + rows
  {
  }

  lemma InsertLater(r: DbRow, rows: seq<DbRow>)
    requires |rows| > 0 && !Before(r, rows[0])
    ensures InsertRow(r, rows) == [rows[0]] + InsertRow(r, rows[1..])
  {
  }

  /** A row inserted later is another client's, or a younger one. */
  lemma NotBefore(r: DbRow, x: DbRow)
    requires !Before(r, x)
    ensures r.clientId == x.clientId ==> r.createdAt > x.createdAt
  {
  }

  lemma {:induction false} InsertRowsOf(r: DbRow, rows: seq<DbRow>, c: int)
    requires forall x :: x in rows && x.clientId == r.clientId ==> r.createdAt <= x.createdAt
    ensures RowsOf(InsertRow(r, rows), c) == (if r.clientId == c then [r.dlr] else []) + RowsOf(rows, c)
    ensures forall x :: x in InsertRow(r, rows) ==> x == r || x in rows
  {
    if |rows| == 0 || Before(r, rows[0]) {
      InsertHere(r, rows);
      RowsOfCons(r, rows, c);
    } else {
      var x, tail := rows[0], rows[1..];
      assert rows == [x] + tail && x in rows;
      InsertLater(r, rows);
      InsertRowsOf(r, tail, c);
      RowsOfCons(x, tail, c);
      RowsOfCons(x, InsertRow(r, tail), c);
      NotBefore(r, x);
      hide *;
    }
  }

  /** ORDER BY client_id, created_at keeps each client's insertion order. */
  lemma {:induction false} OrderedRowsOf(table: seq<DbRow>, c: int)
    requires Sorted(table)
    ensures RowsOf(Ordered(table), c) == RowsOf(table, c)
    ensures forall x :: x in Ordered(table) ==> x in table
  {
    if table != [] {
      OrderedRowsOf(table[1..], c);
      InsertRowsOf(table[0], Ordered(table[1..]), c);
    }
  }

  function FilledIn(q: seq<Dlr>): (r: seq<Dlr>)
    ensures |r| == |q| && forall i :: 0 <= i < |q| ==> r[i] == FillIn(q[i])
  {
    seq(|q|, i requires 0 <= i < |q| => FillIn(q[i]))
  }

  lemma LastLast(a: seq<Dlr>, b: seq<Dlr>, n: nat)
    ensures Last(Last(a, n) + b, n) == Last(a + b, n)
  {
  }

  lemma EnqueuedIsLast(q: seq<Dlr>, x: Dlr)
    requires |q| <= Q.MAX_DLR_QUEUE_PER_CLIENT
    ensures Q.Enqueued(q, x) == Last(q + [x], Q.MAX_DLR_QUEUE_PER_CLIENT)
    ensures |Q.Enqueued(q, x)| <= Q.MAX_DLR_QUEUE_PER_CLIENT
  {
  }

  lemma FilledInCons(q: seq<Dlr>, dlrs: seq<Dlr>)
    requires dlrs != []
    ensures q + [FillIn(dlrs[0])] + FilledIn(dlrs[1..]) == q + FilledIn(dlrs)
  {
  }

  /** Loading stored receipts into a queue within the cap keeps the newest that fit. */
  lemma {:induction false} ReloadedIsLast(q: seq<Dlr>, dlrs: seq<Dlr>)
    requires |q| <= Q.MAX_DLR_QUEUE_PER_CLIENT
    ensures Reloaded(q, dlrs) == Last(q + FilledIn(dlrs), Q.MAX_DLR_QUEUE_PER_CLIENT)
    decreases |dlrs|
  {
    if dlrs == [] {
      assert q + FilledIn(dlrs) == q;
    } else {
      var x, rest := FillIn(dlrs[0]), FilledIn(dlrs[1..]);
      EnqueuedIsLast(q, x);
      ReloadedIsLast(Q.Enqueued(q, x), dlrs[1..]);
      LastLast(q + [x], rest, Q.MAX_DLR_QUEUE_PER_CLIENT);
      FilledInCons(q, dlrs);
    }
  }

  /** A queue comes back unchanged if and only if every receipt has an error code. */
  lemma FillInKeeps(q: seq<Dlr>)
    ensures FilledIn(q) == q <==> forall i :: 0 <= i < |q| ==> |q[i].errorCode| > 0
  {
  }
}
