/**
 What a restart recovers after any run of the persisted queue, requeues past the
 cap included: the stored rows are always the newest part of the queue.
 */
module DlrRecovery {
  import opened Wrappers
  import Q = DlrQueue
  import opened DlrPersist
  import opened DlrPersistMirror

  const CAP := Q.MAX_DLR_QUEUE_PER_CLIENT

  /** The rows are the newest part of the queue: all of it, or at least CAP receipts. */
  ghost predicate Tail(q: seq<Dlr>, rows: seq<Dlr>) {
    && Min(|q|, CAP) <= |rows| <= |q|
    && forall i :: 0 <= i < |rows| ==> rows[i] == q[|q| - |rows| + i]
  }

  /** Every insert of the run is timely. */
  ghost predicate AllTimely(events: seq<Event>) {
    && AllWellTimed(events)
    && (events != [] ==>
          && AllTimely(events[..|events| - 1])
          && Timely(Run(events[..|events| - 1]), events[|events| - 1]))
  }

  lemma TailEnqueued(q: seq<Dlr>, rows: seq<Dlr>, d: Dlr)
    requires Tail(q, rows)
    ensures var rows' := if |q| >= CAP then Last(rows + [d], CAP) else rows + [d];
            && Tail(Q.Enqueued(q, d), rows')
            && (rows' == Q.Enqueued(q, d) <==> rows == q && |q| <= CAP)
  {
    var q' := Q.Enqueued(q, d);
    var rows' := if |q| >= CAP then Last(rows + [d], CAP) else rows + [d];
    assert q + [d] == q[..|q| - |rows|] + (rows + [d]);
    assert rows' == (q + [d])[|q| + 1 - |rows'|..];
    assert rows' == q'[|q'| - |rows'|..];
  }

  lemma TailRequeued(q: seq<Dlr>, rows: seq<Dlr>, dlrs: seq<Dlr>)
    requires Tail(q, rows)
    ensures Tail(q + dlrs, rows + dlrs) && (rows + dlrs == q + dlrs <==> rows == q)
  {
    assert q + dlrs == q[..|q| - |rows|] + (rows + dlrs);
  }

  lemma TailMembers(q: seq<Dlr>, rows: seq<Dlr>)
    requires Tail(q, rows)
    ensures forall x :: x in rows ==> x in q
  {
  }

  /** One call keeps the tail; rows and queue stay equal unless it enqueues past the cap. */
  lemma StepTail(s: Store, e: Event, c: int)
    requires Sorted(s.table) && Timely(s, e)
    requires Tail(Get(s.queues, e.clientId), RowsOf(s.table, e.clientId))
    requires Tail(Get(s.queues, c), RowsOf(s.table, c))
    ensures Sorted(Step(s, e).table)
    ensures var q, rows := Get(s.queues, c), RowsOf(s.table, c);
            var q', rows' := Get(Step(s, e).queues, c), RowsOf(Step(s, e).table, c);
            && Tail(q', rows')
            && (rows' == q' <==>
                  if e.clientId != c then rows == q
                  else if e.DequeueAll? then true
                  else rows == q && (e.Enqueue? ==> |q| <= CAP))
  {
    var q, rows := Get(s.queues, c), RowsOf(s.table, c);
    hide RowsOf, Tail, Sorted;
    match e
    case Enqueue(_, d, _) =>
      EnqueueSorted(s, e);
      EnqueueRows(s, e, c);
      TailEnqueued(q, rows, d);
    case DequeueAll(_) =>
      TailMembers(Get(s.queues, e.clientId), RowsOf(s.table, e.clientId));
      DequeueRows(s, e, c);
      EmptyTail();
    case Requeue(_, dlrs, _) =>
      RequeueRows(s, e, c);
      TailRequeued(q, rows, dlrs);
      assert rows + [] == rows && q + [] == q;
  }

  lemma EmptyTail()
    ensures Tail([], [])
  {
  }

  /** After every timely run, each client's rows are the newest part of its queue. */
  lemma {:induction false} RowsAreTail(events: seq<Event>, c: int)
    requires AllTimely(events)
    ensures Sorted(Run(events).table) && Tail(Get(Run(events).queues, c), RowsOf(Run(events).table, c))
    decreases |events|
  {
    if events != [] {
      hide Tail, Sorted, RowsOf, Step, Timely;
      var before, e := events[..|events| - 1], events[|events| - 1];
      RowsAreTail(before, c);
      RowsAreTail(before, e.clientId);
      StepTail(Run(before), e, c);
    }
  }

  /** Since client c last claimed its queue, nothing was enqueued to it while it was over the cap. */
  ghost predicate Intact(events: seq<Event>, c: int)
    requires AllWellTimed(events)
  {
    events != [] ==>
      var before, e := events[..|events| - 1], events[|events| - 1];
      if e.clientId != c then Intact(before, c)
      else if e.DequeueAll? then true
      else Intact(before, c) && (e.Enqueue? ==> |Get(Run(before).queues, c)| <= CAP)
  }

  /** The exact condition of the mirror: a client's rows are its whole queue if and only if it is intact. */
  lemma {:induction false} MirrorsIff(events: seq<Event>, c: int)
    requires AllTimely(events)
    ensures RowsOf(Run(events).table, c) == Get(Run(events).queues, c) <==> Intact(events, c)
    decreases |events|
  {
    if events != [] {
      hide Tail, Sorted, RowsOf, Step, Timely;
      var before, e := events[..|events| - 1], events[|events| - 1];
      MirrorsIff(before, c);
      RowsAreTail(before, c);
      RowsAreTail(before, e.clientId);
      StepTail(Run(before), e, c);
    }
  }

  lemma LastOfTail(q: seq<Dlr>, rows: seq<Dlr>)
    requires Tail(q, rows)
    ensures Last(rows, CAP) == Last(q, CAP)
  {
  }

  lemma FilledLast(q: seq<Dlr>)
    ensures Last(FilledIn(q), CAP) == FilledIn(Last(q, CAP))
  {
  }

  /**
   Crash recovery, after every timely run: loading the table into empty memory
   gives the newest CAP receipts of each client's queue, in order, up to the
   default fill-ins.
   */
  lemma RecoversNewest(events: seq<Event>, c: int)
    requires AllTimely(events)
    ensures Reloaded([], RowsOf(Ordered(Run(events).table), c)) == FilledIn(Last(Get(Run(events).queues, c), CAP))
  {
    hide RowsOf, Tail, Last, Run;
    RowsAreTail(events, c);
    OrderedRowsOf(Run(events).table, c);
    var rows := RowsOf(Run(events).table, c);
    ReloadedIsLast([], rows);
    assert [] + FilledIn(rows) == FilledIn(rows);
    FilledLast(rows);
    LastOfTail(Get(Run(events).queues, c), rows);
  }

  /** The whole queue is recovered if and only if it is within the cap when the restart comes. */
  lemma RecoversAllIff(events: seq<Event>, c: int)
    requires AllTimely(events)
    ensures Reloaded([], RowsOf(Ordered(Run(events).table), c)) == FilledIn(Get(Run(events).queues, c))
            <==> |Get(Run(events).queues, c)| <= CAP
  {
    hide RowsOf, Run, Reloaded;
    RecoversNewest(events, c);
    assert |FilledIn(Last(Get(Run(events).queues, c), CAP))| == Min(|Get(Run(events).queues, c)|, CAP);
  }

  lemma {:induction false} RegularIsTimely(events: seq<Event>)
    requires Regular(events)
    ensures AllTimely(events)
    decreases |events|
  {
    if events != [] {
      RegularIsTimely(events[..|events| - 1]);
    }
  }

  /** Without a requeue past the cap, a restart rebuilds every queue. */
  lemma CrashRecovery(events: seq<Event>, c: int)
    requires Regular(events)
    ensures Reloaded([], RowsOf(Ordered(Run(events).table), c)) == FilledIn(Get(Run(events).queues, c))
  {
    RegularIsTimely(events);
    TableMirrorsQueues(events);
    RecoversAllIff(events, c);
  }

  lemma EmptyRun()
    ensures Run([]) == Store(map[], [])
  {
  }

  lemma OneMore(events: seq<Event>, e: Event)
    requires AllWellTimed(events) && WellTimed(e)
    ensures Run(events + [e]) == Step(Run(events), e)
  {
    hide Step;
    assert (events + [e])[..|events|] == events;
  }

  /** The failing input: more than CAP receipts given back, then one enqueued. */
  lemma OverCapBreaksMirror(c: int, dlrs: seq<Dlr>, times: seq<int>, d: Dlr, now: int)
    requires |dlrs| == |times| && |dlrs| > CAP
    requires forall i, j :: 0 <= i < j < |times| ==> times[i] < times[j]
    requires forall i :: 0 <= i < |times| ==> times[i] < now
    ensures !Mirror(Run([Requeue(c, dlrs, times), Enqueue(c, d, now)]))
  {
    var a, b := Requeue(c, dlrs, times), Enqueue(c, d, now);
    OneMore([], a);
    OneMore([a], b);
    assert [] + [a] == [a] && [a] + [b] == [a, b];
    var s0, s1 := Store(map[], []), Step(Store(map[], []), a);
    hide Run;
    assert Run([a]) == s1 && Run([a, b]) == Step(s1, b) by { EmptyRun(); }
    assert Mirror(s0) && Sorted(s0.table);
    StepMirrors(s0, a);
    assert Get(s1.queues, c) == dlrs;
    PersistedTimes([], c, dlrs, times, now);
    StepMirrors(s1, b);
  }

  lemma {:induction false} PersistedTimes(table: seq<DbRow>, c: int, dlrs: seq<Dlr>, times: seq<int>, now: int)
    requires |dlrs| == |times| && OlderThan(table, now) && forall i :: 0 <= i < |times| ==> times[i] < now
    ensures OlderThan(PersistedAll(table, c, dlrs, times), now)
    decreases |dlrs|
  {
    if |dlrs| > 0 {
      PersistedTimes(table + [DbRow(c, dlrs[0], times[0])], c, dlrs[1..], times[1..], now);
    }
  }
}
