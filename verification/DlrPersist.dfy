/**
 The database mirror of the receipt queue: every queue call also writes the
 tenant's pending_dlrs table, and a restart rebuilds the queue from its rows.

 The table is a sequence of rows in insertion order. The writes of a call are
 applied when it is made, that is, in issue order.
 */
module DlrPersist {
  import opened Wrappers
  import Q = DlrQueue

  type Dlr = Q.Dlr

  datatype DbRow = DbRow(clientId: int, dlr: Dlr, createdAt: int)

  datatype Event =
    | Enqueue(clientId: int, dlr: Dlr, now: int)
    | DequeueAll(clientId: int)
    | Requeue(clientId: int, dlrs: seq<Dlr>, times: seq<int>)

  /** One tenant: its clients' queues and its table. */
  datatype Store = Store(queues: map<int, seq<Dlr>>, table: seq<DbRow>)

  function Get(queues: map<int, seq<Dlr>>, c: int): seq<Dlr> {
    if c in queues then queues[c] else []
  }

  /** Rows of client c created after `at`. */
  function Newer(table: seq<DbRow>, c: int, at: int): nat {
    if table == [] then 0
    else (if table[0].clientId == c && table[0].createdAt > at then 1 else 0) + Newer(table[1..], c, at)
  }

  /**
   DELETE ... WHERE client_id = c AND id NOT IN (SELECT id ... ORDER BY created_at
   DESC LIMIT 1000): a row of c survives when fewer than 1000 of its rows are newer.
   */
  function KeepNewestFrom(part: seq<DbRow>, table: seq<DbRow>, c: int): seq<DbRow> {
    if part == [] then []
    else (if part[0].clientId != c || Newer(table, c, part[0].createdAt) < Q.MAX_DLR_QUEUE_PER_CLIENT
          then [part[0]] else []) + KeepNewestFrom(part[1..], table, c)
  }

  function KeepNewest(table: seq<DbRow>, c: int): seq<DbRow> {
    KeepNewestFrom(table, table, c)
  }

  /** persistToDb: insert, and prune when memory dropped its oldest. */
  function Persisted(table: seq<DbRow>, c: int, d: Dlr, dropOldest: bool, now: int): seq<DbRow> {
    var t := table + [DbRow(c, d, now)];
    if dropOldest then KeepNewest(t, c) else t
  }

  function PersistedAll(table: seq<DbRow>, c: int, dlrs: seq<Dlr>, times: seq<int>): seq<DbRow>
    requires |dlrs| == |times|
    decreases |dlrs|
  {
    if dlrs == [] then table
    else PersistedAll(Persisted(table, c, dlrs[0], false, times[0]), c, dlrs[1..], times[1..])
  }

  function MessageIds(dlrs: seq<Dlr>): (r: seq<string>)
    ensures |r| == |dlrs| && forall i :: 0 <= i < |dlrs| ==> r[i] == dlrs[i].messageId
  {
    seq(|dlrs|, i requires 0 <= i < |dlrs| => dlrs[i].messageId)
  }

  /** DELETE ... WHERE client_id = c AND message_id = ANY(ids). */
  function Deleted(table: seq<DbRow>, c: int, ids: seq<string>): seq<DbRow> {
    if table == [] then []
    else (if table[0].clientId == c && table[0].dlr.messageId in ids then [] else [table[0]])
         + Deleted(table[1..], c, ids)
  }

  predicate WellTimed(e: Event) {
    e.Requeue? ==> |e.times| == |e.dlrs|
  }

  function Step(s: Store, e: Event): Store
    requires WellTimed(e)
  {
    var c, q := e.clientId, Get(s.queues, e.clientId);
    match e
    case Enqueue(_, d, now) =>
      Store(s.queues[c := Q.Enqueued(q, d)],
            Persisted(s.table, c, d, |q| >= Q.MAX_DLR_QUEUE_PER_CLIENT, now))
    case DequeueAll(_) =>
      if |q| == 0 then s else Store(s.queues - {c}, Deleted(s.table, c, MessageIds(q)))
    case Requeue(_, dlrs, times) =>
      if |dlrs| == 0 then s else Store(s.queues[c := q + dlrs], PersistedAll(s.table, c, dlrs, times))
  }

  ghost predicate AllWellTimed(events: seq<Event>) {
    forall i :: 0 <= i < |events| ==> WellTimed(events[i])
  }

  function Run(events: seq<Event>): Store
    requires AllWellTimed(events)
  {
    if events == [] then Store(map[], [])
    else Step(Run(events[..|events| - 1]), events[|events| - 1])
  }

  // ---- reloading ----

  /** The default fill-ins of the loader: only an empty error code changes. */
  function FillIn(d: Dlr): Dlr {
    d.(errorCode := if d.errorCode == "" then "000" else d.errorCode)
  }

  predicate Before(a: DbRow, b: DbRow) {
    a.clientId < b.clientId || (a.clientId == b.clientId && a.createdAt <= b.createdAt)
  }

  function InsertRow(r: DbRow, rows: seq<DbRow>): seq<DbRow> {
    if rows == [] || Before(r, rows[0]) then [r] + rows else [rows[0]] + InsertRow(r, rows[1..])
  }

  /** SELECT ... ORDER BY client_id, created_at. */
  function Ordered(table: seq<DbRow>): seq<DbRow> {
    if table == [] then [] else InsertRow(table[0], Ordered(table[1..]))
  }

  /** Client c's receipts among the rows, in order. */
  function RowsOf(rows: seq<DbRow>, c: int): seq<Dlr> {
    if rows == [] then []
    else (if rows[0].clientId == c then [rows[0].dlr] else []) + RowsOf(rows[1..], c)
  }

  /** A queue after the loader has enqueued these stored receipts. */
  function Reloaded(q: seq<Dlr>, dlrs: seq<Dlr>): seq<Dlr>
    decreases |dlrs|
  {
    if dlrs == [] then q else Reloaded(Q.Enqueued(q, FillIn(dlrs[0])), dlrs[1..])
  }

  /** The wrappers for one tenant: its schema's table beside the shared memory queues. */
  class PersistentQueues {
    const tenantId: int
    const mem: Q.DlrQueues
    var table: seq<DbRow>
    ghost var history: seq<Event>

    ghost predicate Valid()
      reads this, mem
    {
      && mem.Valid() && AllWellTimed(history)
      && table == Run(history).table
      && (forall c: int :: Q.Lookup(mem.pending, Q.Key(tenantId, c)) == Get(Run(history).queues, c))
    }

    /** A tenant without stored receipts joins the memory queues that all tenants share. */
    constructor (tenantId: int, mem: Q.DlrQueues)
      requires mem.Valid() && forall c: int :: Q.Lookup(mem.pending, Q.Key(tenantId, c)) == []
      ensures Valid() && this.mem == mem && this.tenantId == tenantId && history == [] && table == []
    {
      this.tenantId := tenantId;
      this.mem := mem;
      table := [];
      history := [];
    }

    method Record(ghost e: Event)
      requires mem.Valid() && AllWellTimed(history) && WellTimed(e)
      requires table == Step(Run(history), e).table
      requires forall c: int :: Q.Lookup(mem.pending, Q.Key(tenantId, c)) == Get(Step(Run(history), e).queues, c)
      modifies this`history
      ensures history == old(history) + [e] && Valid()
    {
      assert (history + [e])[..|history|] == history;
      history := history + [e];
    }

    method EnqueueDlrPersist(clientId: int, dlr: Dlr, now: int) returns (depth: nat, dropped: bool)
      requires Valid()
      modifies this, mem
      ensures Valid() && history == old(history) + [Enqueue(clientId, dlr, now)]
      ensures dropped <==> |Q.Lookup(old(mem.pending), Q.Key(tenantId, clientId))| >= Q.MAX_DLR_QUEUE_PER_CLIENT
      ensures depth == |Q.Lookup(mem.pending, Q.Key(tenantId, clientId))|
      ensures forall k: Q.Key :: k.tenantId != tenantId ==> Q.Lookup(mem.pending, k) == Q.Lookup(old(mem.pending), k)
    {
      depth, dropped := mem.EnqueueDlr(Q.Key(tenantId, clientId), dlr);
      table := Persisted(table, clientId, dlr, dropped, now);
      Record(Enqueue(clientId, dlr, now));
    }

    method DequeueAllDlrsPersist(clientId: int) returns (dlrs: seq<Dlr>)
      requires Valid()
      modifies this, mem
      ensures Valid() && history == old(history) + [DequeueAll(clientId)]
      ensures dlrs == Q.Lookup(old(mem.pending), Q.Key(tenantId, clientId))
      ensures forall k: Q.Key :: k.tenantId != tenantId ==> Q.Lookup(mem.pending, k) == Q.Lookup(old(mem.pending), k)
    {
      dlrs := mem.DequeueAllDlrs(Q.Key(tenantId, clientId));
      if |dlrs| > 0 {
        table := Deleted(table, clientId, MessageIds(dlrs));
      }
      Record(DequeueAll(clientId));
    }

    /** The loop that persists each re-queued receipt. */
    static method PersistEach(start: seq<DbRow>, c: int, dlrs: seq<Dlr>, times: seq<int>) returns (table: seq<DbRow>)
      requires |times| == |dlrs|
      ensures table == PersistedAll(start, c, dlrs, times)
    {
      table := start;
      for i := 0 to |dlrs|
        invariant PersistedAll(table, c, dlrs[i..], times[i..]) == PersistedAll(start, c, dlrs, times)
      {
        assert dlrs[i..][1..] == dlrs[i + 1..] && times[i..][1..] == times[i + 1..];
        table := Persisted(table, c, dlrs[i], false, times[i]);
      }
    }

    method RequeueDlrsPersist(clientId: int, dlrs: seq<Dlr>, times: seq<int>, ghost picks: seq<nat>)
      requires Valid() && |times| == |dlrs|
      modifies this, mem
      ensures Valid() && history == old(history) + [Requeue(clientId, dlrs, times)]
      ensures forall k: Q.Key :: k.tenantId != tenantId ==> Q.Lookup(mem.pending, k) == Q.Lookup(old(mem.pending), k)
    {
      if |dlrs| > 0 {
        mem.RequeueDlrs(Q.Key(tenantId, clientId), dlrs, picks);
        table := PersistEach(table, clientId, dlrs, times);
      }
      Record(Requeue(clientId, dlrs, times));
    }
  }

  /** What the calls of another tenant keep, as their contracts say, keeps this tenant valid on the shared memory. */
  twostate lemma OtherTenantKept(b: PersistentQueues)
    requires old(b.Valid()) && unchanged(b) && b.mem.Valid()
    requires forall k: Q.Key :: k.tenantId == b.tenantId ==> Q.Lookup(b.mem.pending, k) == old(Q.Lookup(b.mem.pending, k))
    ensures b.Valid()
  {
  }

  lemma ReloadStep(q: seq<Dlr>, rows: seq<DbRow>, c: int)
    requires rows != []
    ensures Reloaded(q, RowsOf(rows, c)) ==
            Reloaded(if rows[0].clientId == c then Q.Enqueued(q, FillIn(rows[0].dlr)) else q, RowsOf(rows[1..], c))
  {
    var rest := RowsOf(rows[1..], c);
    assert ([rows[0].dlr] + rest)[1..] == rest;
    assert [] + rest == rest;
  }

  /** The restart loop: enqueue every row of the tenant's table, in SELECT order. */
  method LoadDlrsFromDb(mem: Q.DlrQueues, tenantId: int, rows: seq<DbRow>) returns (loaded: nat)
    requires mem.Valid()
    modifies mem
    ensures mem.Valid() && loaded == |rows|
    ensures forall c: int :: Q.Lookup(mem.pending, Q.Key(tenantId, c))
                             == Reloaded(Q.Lookup(old(mem.pending), Q.Key(tenantId, c)), RowsOf(rows, c))
    ensures forall k: Q.Key :: k.tenantId != tenantId ==> Q.Lookup(mem.pending, k) == Q.Lookup(old(mem.pending), k)
  {
    loaded := 0;
    for i := 0 to |rows|
      invariant mem.Valid() && loaded == i
      invariant forall c: int :: Reloaded(Q.Lookup(mem.pending, Q.Key(tenantId, c)), RowsOf(rows[i..], c))
                                 == Reloaded(Q.Lookup(old(mem.pending), Q.Key(tenantId, c)), RowsOf(rows, c))
      invariant forall k: Q.Key :: k.tenantId != tenantId ==> Q.Lookup(mem.pending, k) == Q.Lookup(old(mem.pending), k)
    {
      var row := rows[i];
      assert rows[i..][1..] == rows[i + 1..];
      ghost var before := mem.pending;
      var depth, dropped := mem.EnqueueDlr(Q.Key(tenantId, row.clientId), FillIn(row.dlr));
      forall c: int
        ensures Reloaded(Q.Lookup(mem.pending, Q.Key(tenantId, c)), RowsOf(rows[i + 1..], c))
                == Reloaded(Q.Lookup(before, Q.Key(tenantId, c)), RowsOf(rows[i..], c))
      {
        ReloadStep(Q.Lookup(before, Q.Key(tenantId, c)), rows[i..], c);
      }
      loaded := loaded + 1;
    }
  }
}
