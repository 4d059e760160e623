/**
 Progress of consecutive sweeps under a fixed clock and configuration, when it
 fails, and the link from one sweep's loop to the interleaved protocol.
 */
module DlrSweeperProgress {
  import opened Wrappers
  import opened DlrSweeper
  import opened DlrSweeperRuns

  /** A candidate the sweeper would resolve now. */
  predicate Due(r: Row, env: Env) {
    Candidate(r, env.now) && Resolves(PlanFor(r, env))
  }

  /** Due messages created at `at` or before. */
  function DueIds(table: seq<Row>, env: Env, at: int): set<string> {
    set r | r in table && Due(r, env) && r.createdAt <= at :: r.messageId
  }

  /** A candidate that is skipped or not yet due: it stays in the candidate set. */
  predicate Stuck(r: Row, env: Env) {
    Candidate(r, env.now) && !Resolves(PlanFor(r, env))
  }

  function StuckIds(table: seq<Row>, env: Env, at: int): set<string> {
    set r | r in table && Stuck(r, env) && r.createdAt <= at :: r.messageId
  }

  function IdsOf(rows: seq<Row>): set<string> {
    set r | r in rows :: r.messageId
  }

  /** An answer of the candidate SELECT: oldest first, at most SELECT_LIMIT, nothing older left out. */
  ghost predicate Selected(rows: seq<Row>, table: seq<Row>, now: int) {
    && UniqueIds(rows)
    && (forall r :: r in rows ==> r in table && Candidate(r, now))
    && |rows| <= SELECT_LIMIT
    && (|rows| < SELECT_LIMIT ==> forall r :: r in table && Candidate(r, now) ==> r in rows)
    && (forall i, j :: 0 <= i < j < |rows| ==> rows[i].createdAt <= rows[j].createdAt)
    && (forall r, c :: r in rows && c in table && Candidate(c, now) && c !in rows ==> r.createdAt <= c.createdAt)
  }

  function Same(env: Env, n: nat): (r: seq<Env>)
    ensures |r| == n && forall i :: 0 <= i < n ==> r[i] == env
  {
    seq(n, i => env)
  }

  /** One sweep with a fixed clock and configuration, from empty tallies. */
  function SweepOnce(table: seq<Row>, rows: seq<Row>, env: Env): Tally {
    SweepRows(Tally(table, 0, [], 0, 0), rows, Same(env, |rows|))
  }

  lemma {:induction false} UniqueSize(rows: seq<Row>)
    requires UniqueIds(rows)
    ensures |IdsOf(rows)| == |rows|
  {
    if rows != [] {
      UniqueSize(rows[1..]);
      assert IdsOf(rows) == {rows[0].messageId} + IdsOf(rows[1..]);
      assert rows[0].messageId !in IdsOf(rows[1..]);
    }
  }

  /** The row as a sweep over `rows` leaves it. */
  function After(r: Row, rows: seq<Row>, env: Env): Row {
    if r in rows && Resolves(PlanFor(r, env)) then Marked(r, PlanFor(r, env)) else r
  }

  function Count(rows: seq<Row>, env: Env): nat {
    if rows == [] then 0 else (if Resolves(PlanFor(rows[0], env)) then 1 else 0) + Count(rows[1..], env)
  }

  lemma RowOfTable(table: seq<Row>, r: Row) returns (k: nat)
    requires UniqueIds(table) && r in table
    ensures k < |table| && table[k] == r
    ensures forall j :: 0 <= j < |table| && table[j].messageId == r.messageId ==> j == k
  {
    k :| 0 <= k < |table| && table[k] == r;
  }

  /** A sweep resolves exactly the due rows among those it was given, and leaves all others. */
  lemma {:induction false} SweepEffect(t: Tally, rows: seq<Row>, env: Env)
    requires UniqueIds(t.table) && UniqueIds(rows)
    requires forall r :: r in rows ==> r in t.table && Awaiting(r)
    ensures var z := SweepRows(t, rows, Same(env, |rows|));
            && |z.table| == |t.table|
            && (forall j :: 0 <= j < |t.table| ==> z.table[j] == After(t.table[j], rows, env))
            && z.resolved == t.resolved + Count(rows, env)
    decreases |rows|
  {
    if rows != [] {
      var r, rest := rows[0], rows[1..];
      var u := SweepRow(t, r, env);
      var k := RowOfTable(t.table, r);
      assert Hits(t.table[k], r.messageId);
      assert forall j :: 0 <= j < |t.table| && j != k ==> u.table[j] == t.table[j];
      assert Same(env, |rows|)[1..] == Same(env, |rest|);
      forall q | q in rest
        ensures q in u.table && Awaiting(q)
      {
        var m := RowOfTable(t.table, q);
        assert u.table[m] == q;
      }
      SweepEffect(u, rest, env);
      assert r !in rest;
      forall j | 0 <= j < |t.table|
        ensures After(u.table[j], rest, env) == After(t.table[j], rows, env)
      {
        if j == k {
          if Resolves(PlanFor(r, env)) {
            assert u.table[k].messageId == r.messageId;
            assert u.table[k] !in rest;
          }
        } else {
          assert t.table[j] in rows <==> t.table[j] in rest;
        }
      }
    }
  }

  lemma {:induction false} CountIsDue(rows: seq<Row>, env: Env)
    requires UniqueIds(rows) && forall r :: r in rows ==> Candidate(r, env.now)
    ensures Count(rows, env) == |DueIds(rows, env, env.now)|
  {
    if rows == [] {
      assert DueIds(rows, env, env.now) == {};
    } else {
      hide PlanFor;
      CountIsDue(rows[1..], env);
      var r := rows[0];
      assert r.messageId !in DueIds(rows[1..], env, env.now);
      assert DueIds(rows, env, env.now)
             == DueIds(rows[1..], env, env.now) + if Due(r, env) then {r.messageId} else {};
    }
  }

  /** z is the table with exactly the due rows among `rows` resolved. */
  ghost predicate Swept(table: seq<Row>, rows: seq<Row>, env: Env, z: seq<Row>) {
    |z| == |table| && forall j :: 0 <= j < |table| ==> z[j] == After(table[j], rows, env)
  }

  lemma SweepOnceSwept(table: seq<Row>, rows: seq<Row>, env: Env)
    requires UniqueIds(table) && Selected(rows, table, env.now)
    ensures Swept(table, rows, env, SweepOnce(table, rows, env).table)
    ensures SweepOnce(table, rows, env).resolved == |DueIds(rows, env, env.now)|
  {
    SweepEffect(Tally(table, 0, [], 0, 0), rows, env);
    CountIsDue(rows, env);
  }

  lemma MarkedIsClosed(r: Row, p: Plan, env: Env)
    requires Resolves(p)
    ensures !Candidate(Marked(r, p), env.now)
  {
  }

  /** A swept row is as it was, unless it was due and selected; then it is closed. */
  lemma SweptRow(table: seq<Row>, rows: seq<Row>, env: Env, z: seq<Row>, k: nat)
    requires Selected(rows, table, env.now) && Swept(table, rows, env, z) && k < |table|
    ensures z[k].messageId == table[k].messageId && z[k].createdAt == table[k].createdAt
    ensures z[k] == if table[k] in rows && Due(table[k], env) then Marked(table[k], PlanFor(table[k], env)) else table[k]
    ensures Candidate(z[k], env.now) ==> z[k] == table[k] && !(table[k] in rows && Due(table[k], env))
  {
    hide PlanFor, Candidate;
    if Resolves(PlanFor(table[k], env)) {
      MarkedIsClosed(table[k], PlanFor(table[k], env), env);
    }
  }

  lemma DueAfter(table: seq<Row>, rows: seq<Row>, env: Env, z: seq<Row>, at: int)
    requires UniqueIds(table) && Selected(rows, table, env.now) && Swept(table, rows, env, z)
    ensures DueIds(z, env, at) == DueIds(table, env, at) - DueIds(rows, env, at)
  {
    hide PlanFor, Candidate, Swept;
    var left := DueIds(table, env, at) - DueIds(rows, env, at);
    assert |z| == |table| by { SweptSize(table, rows, env, z); }
    forall id | id in left
      ensures id in DueIds(z, env, at)
    {
      var r :| r in table && Due(r, env) && r.createdAt <= at && r.messageId == id;
      var k := RowOfTable(table, r);
      SweptRow(table, rows, env, z, k);
      assert z[k] == r;
    }
    forall id | id in DueIds(z, env, at)
      ensures id in left
    {
      var r :| r in z && Due(r, env) && r.createdAt <= at && r.messageId == id;
      var k :| 0 <= k < |z| && z[k] == r;
      SweptRow(table, rows, env, z, k);
      assert r in table && r !in rows;
      assert id !in DueIds(rows, env, at);
    }
  }

  lemma SweptSize(table: seq<Row>, rows: seq<Row>, env: Env, z: seq<Row>)
    requires Swept(table, rows, env, z)
    ensures |z| == |table|
  {
  }

  lemma StuckAfter(table: seq<Row>, rows: seq<Row>, env: Env, z: seq<Row>, at: int)
    requires Selected(rows, table, env.now) && Swept(table, rows, env, z)
    ensures StuckIds(z, env, at) == StuckIds(table, env, at)
  {
    hide PlanFor, Candidate, Swept, Selected;
    SweptSize(table, rows, env, z);
    forall id | id in StuckIds(table, env, at)
      ensures id in StuckIds(z, env, at)
    {
      var r :| r in table && Stuck(r, env) && r.createdAt <= at && r.messageId == id;
      var k :| 0 <= k < |table| && table[k] == r;
      SweptRow(table, rows, env, z, k);
      assert z[k] == r;
    }
    forall id | id in StuckIds(z, env, at)
      ensures id in StuckIds(table, env, at)
    {
      var r :| r in z && Stuck(r, env) && r.createdAt <= at && r.messageId == id;
      var k :| 0 <= k < |z| && z[k] == r;
      SweptRow(table, rows, env, z, k);
      assert table[k] == r;
    }
  }

  lemma FullSelection(table: seq<Row>, rows: seq<Row>, env: Env, at: int)
    requires Selected(rows, table, env.now) && forall r :: r in rows ==> r.createdAt <= at
    ensures |rows| <= |DueIds(rows, env, at)| + |StuckIds(table, env, at)|
  {
    hide PlanFor, Candidate;
    var stuck := IdsOf(rows) - DueIds(rows, env, at);
    UniqueSize(rows);
    forall id | id in stuck
      ensures id in StuckIds(table, env, at)
    {
      var r :| r in rows && r.messageId == id;
      assert !Due(r, env);
    }
    SubsetSize(stuck, StuckIds(table, env, at));
    SubsetSize(IdsOf(rows), DueIds(rows, env, at) + stuck);
  }

  /** A due row that a SELECT passes over: SELECT_LIMIT rows, none younger, were selected. */
  lemma PassedOver(table: seq<Row>, rows: seq<Row>, env: Env, d: Row)
    requires Selected(rows, table, env.now) && d in table && Due(d, env) && d !in rows
    ensures |rows| == SELECT_LIMIT && forall r :: r in rows ==> r.createdAt <= d.createdAt
  {
    hide PlanFor, Candidate;
  }

  /**
   Of the candidates created up to `at`, m of them stuck: a SELECT that does not
   hold all due ones holds at least SELECT_LIMIT - m of them.
   */
  lemma SelectionDue(table: seq<Row>, rows: seq<Row>, env: Env, at: int)
    requires Selected(rows, table, env.now)
    ensures |DueIds(rows, env, at)|
            >= Min(|DueIds(table, env, at)|, SELECT_LIMIT - |StuckIds(table, env, at)|)
  {
    hide PlanFor, Candidate;
    if d :| d in table && Due(d, env) && d.createdAt <= at && d !in rows {
      PassedOver(table, rows, env, d);
      FullSelection(table, rows, env, at);
    } else {
      SubsetSize(DueIds(table, env, at), DueIds(rows, env, at));
    }
  }

  lemma SetSizes(all: set<string>, some: set<string>, left: set<string>)
    requires some <= all && left == all - some
    ensures |left| == |all| - |some|
  {
  }

  lemma DueShrinks(table: seq<Row>, rows: seq<Row>, env: Env, z: seq<Row>, at: int)
    requires UniqueIds(table) && Selected(rows, table, env.now) && Swept(table, rows, env, z)
    ensures |DueIds(z, env, at)|
            <= Max(0, |DueIds(table, env, at)| - (SELECT_LIMIT - |StuckIds(table, env, at)|))
  {
    hide PlanFor, Candidate, Swept;
    DueAfter(table, rows, env, z, at);
    SelectionDue(table, rows, env, at);
    assert forall r :: r in rows && Due(r, env) ==> r in table;
    SetSizes(DueIds(table, env, at), DueIds(rows, env, at), DueIds(z, env, at));
  }

  lemma SweptUnique(table: seq<Row>, rows: seq<Row>, env: Env, z: seq<Row>)
    requires UniqueIds(table) && Swept(table, rows, env, z)
    ensures UniqueIds(z)
  {
    assert forall j :: 0 <= j < |z| ==> z[j].messageId == table[j].messageId;
  }

  /**
   For every point in time: with m stuck candidates up to it, one sweep resolves
   at least min(due up to it, SELECT_LIMIT - m) messages.
   */
  lemma SweepProgress(table: seq<Row>, rows: seq<Row>, env: Env, at: int)
    requires UniqueIds(table) && Selected(rows, table, env.now)
    ensures SweepOnce(table, rows, env).resolved
            >= Min(|DueIds(table, env, at)|, SELECT_LIMIT - |StuckIds(table, env, at)|)
  {
    SweepOnceSwept(table, rows, env);
    SelectionDue(table, rows, env, at);
    SubsetSize(DueIds(rows, env, at), DueIds(rows, env, env.now));
  }

  lemma SubsetSize<T>(a: set<T>, b: set<T>)
    requires a <= b
    ensures |a| <= |b|
  {
    assert b == a + (b - a);
  }

  // ---- consecutive sweeps ----

  /** tables[i + 1] is tables[i] after a sweep over its own SELECT, batches[i]. */
  ghost predicate SweepChain(tables: seq<seq<Row>>, batches: seq<seq<Row>>, env: Env) {
    && |tables| == |batches| + 1
    && forall i :: 0 <= i < |batches| ==>
                     && Selected(batches[i], tables[i], env.now)
                     && tables[i + 1] == SweepOnce(tables[i], batches[i], env).table
  }

  lemma ChainStep(tables: seq<seq<Row>>, batches: seq<seq<Row>>, env: Env, i: nat)
    requires SweepChain(tables, batches, env) && i < |batches| && UniqueIds(tables[i])
    ensures Selected(batches[i], tables[i], env.now) && Swept(tables[i], batches[i], env, tables[i + 1])
  {
    SweepOnceSwept(tables[i], batches[i], env);
  }

  /** Sweeps keep identities and the stuck candidates of every age. */
  lemma {:induction false} ChainKeeps(tables: seq<seq<Row>>, batches: seq<seq<Row>>, env: Env, n: nat, at: int)
    requires SweepChain(tables, batches, env) && UniqueIds(tables[0]) && n <= |batches|
    ensures UniqueIds(tables[n]) && |tables[n]| == |tables[0]|
    ensures StuckIds(tables[n], env, at) == StuckIds(tables[0], env, at)
  {
    hide StuckIds, SweepOnce, Selected, Swept, UniqueIds;
    if n > 0 {
      ChainKeeps(tables, batches, env, n - 1, at);
      ChainStep(tables, batches, env, n - 1);
      SweptSize(tables[n - 1], batches[n - 1], env, tables[n]);
      SweptUnique(tables[n - 1], batches[n - 1], env, tables[n]);
      StuckAfter(tables[n - 1], batches[n - 1], env, tables[n], at);
    }
  }

  /** What n subtractions of `room` leave of `due`. */
  function Left(due: int, room: int, n: nat): int {
    Max(0, due - n * room)
  }

  lemma LeftOver(n: nat, room: int, first: int, before: int, after: int)
    requires n > 0 && room >= 0
    requires before <= Left(first, room, n - 1) && after <= Max(0, before - room)
    ensures after <= Left(first, room, n)
  {
    assert n * room == (n - 1) * room + room;
  }

  /** What is left due up to `at` after n sweeps, while fewer than SELECT_LIMIT candidates up to `at` are stuck. */
  lemma {:induction false} DueLeft(tables: seq<seq<Row>>, batches: seq<seq<Row>>, env: Env, n: nat, at: int)
    requires SweepChain(tables, batches, env) && UniqueIds(tables[0]) && n <= |batches|
    requires |StuckIds(tables[0], env, at)| < SELECT_LIMIT
    ensures |DueIds(tables[n], env, at)|
            <= Left(|DueIds(tables[0], env, at)|, SELECT_LIMIT - |StuckIds(tables[0], env, at)|, n)
  {
    hide DueIds, StuckIds, SweepOnce, Selected, Swept, UniqueIds;
    var due, room := |DueIds(tables[0], env, at)|, SELECT_LIMIT - |StuckIds(tables[0], env, at)|;
    if n == 0 {
      assert Left(due, room, 0) >= due;
    } else {
      hide Left;
      DueLeft(tables, batches, env, n - 1, at);
      ChainKeeps(tables, batches, env, n - 1, at);
      ChainStep(tables, batches, env, n - 1);
      DueShrinks(tables[n - 1], batches[n - 1], env, tables[n], at);
      LeftOver(n, room, due, |DueIds(tables[n - 1], env, at)|, |DueIds(tables[n], env, at)|);
    }
  }

  /** After any number of sweeps a row is as it was, or was due and is closed by its plan. */
  ghost predicate FateOf(d: Row, r: Row, env: Env) {
    r == d || (Due(d, env) && r == Marked(d, PlanFor(d, env)))
  }

  lemma FateStep(table: seq<Row>, rows: seq<Row>, env: Env, z: seq<Row>, k: nat, d: Row)
    requires Selected(rows, table, env.now) && Swept(table, rows, env, z) && k < |table| && FateOf(d, table[k], env)
    ensures k < |z| && FateOf(d, z[k], env)
  {
    hide PlanFor, Candidate, Swept, Selected;
    SweptSize(table, rows, env, z);
    SweptRow(table, rows, env, z, k);
    if table[k] != d {
      MarkedIsClosed(d, PlanFor(d, env), env);
    }
  }

  lemma {:induction false} ChainFate(tables: seq<seq<Row>>, batches: seq<seq<Row>>, env: Env, n: nat, j: nat)
    requires SweepChain(tables, batches, env) && UniqueIds(tables[0]) && n <= |batches| && j < |tables[0]|
    ensures j < |tables[n]| && FateOf(tables[0][j], tables[n][j], env)
  {
    hide SweepOnce, Selected, Swept, UniqueIds, FateOf;
    if n == 0 {
      SameFate(tables[0][j], env);
    } else {
      ChainFate(tables, batches, env, n - 1, j);
      ChainKeeps(tables, batches, env, n - 1, 0);
      ChainStep(tables, batches, env, n - 1);
      FateStep(tables[n - 1], batches[n - 1], env, tables[n], j, tables[0][j]);
    }
  }

  lemma SameFate(d: Row, env: Env)
    ensures FateOf(d, d, env)
  {
  }

  lemma NoneDue(table: seq<Row>, env: Env, d: Row)
    requires Due(d, env) && |DueIds(table, env, d.createdAt)| == 0
    ensures d !in table
  {
    hide PlanFor, Candidate;
    assert d in table ==> d.messageId in DueIds(table, env, d.createdAt);
  }

  // ---- the fate of one due row ----

  /**
   With m < SELECT_LIMIT stuck candidates no younger than a due row, it is closed
   within ceil(due rows no younger / (SELECT_LIMIT - m)) sweeps.
   */
  lemma RowResolved(tables: seq<seq<Row>>, batches: seq<seq<Row>>, env: Env, j: nat)
    requires SweepChain(tables, batches, env) && UniqueIds(tables[0])
    requires j < |tables[0]| && Due(tables[0][j], env)
    requires var at := tables[0][j].createdAt;
             && |StuckIds(tables[0], env, at)| < SELECT_LIMIT
             && |batches| * (SELECT_LIMIT - |StuckIds(tables[0], env, at)|) >= |DueIds(tables[0], env, at)|
    ensures j < |tables[|batches|]|
    ensures tables[|batches|][j] == Marked(tables[0][j], PlanFor(tables[0][j], env))
  {
    hide PlanFor, Candidate, SweepOnce, Selected, UniqueIds;
    var d, n := tables[0][j], |batches|;
    DueLeft(tables, batches, env, n, d.createdAt);
    ChainFate(tables, batches, env, n, j);
    NoneDue(tables[n], env, d);
    assert tables[n][j] in tables[n];
  }

  /** A selection that reaches a due row holds every older candidate too. */
  lemma OlderFillSelection(table: seq<Row>, rows: seq<Row>, env: Env, older: set<string>, d: Row)
    requires UniqueIds(table) && Selected(rows, table, env.now) && d in rows && Due(d, env)
    requires older <= StuckIds(table, env, env.now)
    requires forall c :: c in table && c.messageId in older ==> c.createdAt < d.createdAt
    ensures |rows| > |older|
  {
    hide PlanFor, Candidate;
    forall id | id in older
      ensures id in IdsOf(rows)
    {
      var c :| c in table && Stuck(c, env) && c.messageId == id;
      assert c in rows;
    }
    assert d in table && d.messageId !in older;
    SubsetSize(older + {d.messageId}, IdsOf(rows));
    UniqueSize(rows);
  }

  /** No SELECT reaches a due row behind SELECT_LIMIT strictly older stuck candidates. */
  lemma NeverSelected(table: seq<Row>, rows: seq<Row>, env: Env, d: Row)
    requires UniqueIds(table) && Selected(rows, table, env.now) && d in table && Due(d, env)
    requires |StuckIds(table, env, d.createdAt - 1)| >= SELECT_LIMIT
    ensures d !in rows
  {
    hide PlanFor;
    var older := StuckIds(table, env, d.createdAt - 1);
    forall c | c in table && c.messageId in older
      ensures c.createdAt < d.createdAt
    {
      var s :| s in table && Stuck(s, env) && s.createdAt <= d.createdAt - 1 && s.messageId == c.messageId;
      var k := RowOfTable(table, s);
    }
    if d in rows {
      OlderFillSelection(table, rows, env, older, d);
    }
  }

  /** Behind SELECT_LIMIT strictly older stuck candidates a due row is never selected and never changes. */
  lemma {:induction false} RowStarved(tables: seq<seq<Row>>, batches: seq<seq<Row>>, env: Env, n: nat, j: nat)
    requires SweepChain(tables, batches, env) && UniqueIds(tables[0]) && n <= |batches|
    requires j < |tables[0]| && Due(tables[0][j], env)
    requires |StuckIds(tables[0], env, tables[0][j].createdAt - 1)| >= SELECT_LIMIT
    ensures j < |tables[n]| && tables[n][j] == tables[0][j]
    ensures forall i :: 0 <= i < n ==> tables[0][j] !in batches[i]
  {
    hide PlanFor, Candidate, StuckIds, SweepOnce, Selected, Swept, UniqueIds;
    var d := tables[0][j];
    if n > 0 {
      RowStarved(tables, batches, env, n - 1, j);
      ChainKeeps(tables, batches, env, n - 1, d.createdAt - 1);
      ChainStep(tables, batches, env, n - 1);
      NeverSelected(tables[n - 1], batches[n - 1], env, d);
      SweptSize(tables[n - 1], batches[n - 1], env, tables[n]);
      SweptRow(tables[n - 1], batches[n - 1], env, tables[n], j);
    }
  }

  lemma NoTies(table: seq<Row>, env: Env, at: int)
    requires forall c :: c in table && Stuck(c, env) ==> c.createdAt != at
    ensures StuckIds(table, env, at) == StuckIds(table, env, at - 1)
  {
    hide PlanFor, Candidate;
  }

  lemma EnoughSweeps(n: nat, room: int, due: int)
    requires room >= 1 && n >= due
    ensures n * room >= due
  {
    assert n * room == n + n * (room - 1);
    assert n * (room - 1) >= 0;
  }

  /**
   The exact condition: given as many sweeps as there are due rows no younger, a
   due row created at its own time is closed if and only if fewer than
   SELECT_LIMIT candidates older than it are stuck; otherwise it never changes.
   */
  lemma RowResolvedIff(tables: seq<seq<Row>>, batches: seq<seq<Row>>, env: Env, j: nat)
    requires SweepChain(tables, batches, env) && UniqueIds(tables[0])
    requires j < |tables[0]| && Due(tables[0][j], env)
    requires forall c :: c in tables[0] && Stuck(c, env) ==> c.createdAt != tables[0][j].createdAt
    requires |batches| >= |DueIds(tables[0], env, tables[0][j].createdAt)|
    ensures j < |tables[|batches|]|
    ensures var d, r := tables[0][j], tables[|batches|][j];
            && (r == d || r == Marked(d, PlanFor(d, env)))
            && (r != d <==> |StuckIds(tables[0], env, d.createdAt - 1)| < SELECT_LIMIT)
  {
    hide PlanFor, Candidate, StuckIds, SweepOnce, Selected, UniqueIds;
    var d := tables[0][j];
    NoTies(tables[0], env, d.createdAt);
    if |StuckIds(tables[0], env, d.createdAt)| < SELECT_LIMIT {
      EnoughSweeps(|batches|, SELECT_LIMIT - |StuckIds(tables[0], env, d.createdAt)|,
                   |DueIds(tables[0], env, d.createdAt)|);
      RowResolved(tables, batches, env, j);
      DueIsOpen(d, env);
    } else {
      RowStarved(tables, batches, env, |batches|, j);
    }
  }

  lemma DueIsOpen(d: Row, env: Env)
    requires Due(d, env)
    ensures Marked(d, PlanFor(d, env)) != d
  {
    hide PlanFor;
    MarkedIsClosed(d, PlanFor(d, env), env);
  }

  // ---- all due rows ----

  lemma NarrowerSets(table: seq<Row>, env: Env, narrow: int, wide: int)
    requires narrow <= wide
    ensures |StuckIds(table, env, narrow)| <= |StuckIds(table, env, wide)|
    ensures |DueIds(table, env, narrow)| <= |DueIds(table, env, wide)|
  {
    hide PlanFor, Candidate;
    SubsetSize(StuckIds(table, env, narrow), StuckIds(table, env, wide));
    SubsetSize(DueIds(table, env, narrow), DueIds(table, env, wide));
  }

  lemma MoreRoom(n: nat, room: int, more: int, due: int, fewer: int)
    requires room <= more && n * room >= due >= fewer
    ensures n * more >= fewer
  {
    assert n * more == n * room + n * (more - room);
    assert n * (more - room) >= 0;
  }

  /**
   When every due row was created by `at` and m < SELECT_LIMIT candidates up to
   `at` are stuck, ceil(due / (SELECT_LIMIT - m)) sweeps close every due row.
   Stuck candidates younger than all due rows do not count.
   */
  lemma AllDueResolved(tables: seq<seq<Row>>, batches: seq<seq<Row>>, env: Env, at: int)
    requires SweepChain(tables, batches, env) && UniqueIds(tables[0])
    requires forall r :: r in tables[0] && Due(r, env) ==> r.createdAt <= at
    requires |StuckIds(tables[0], env, at)| < SELECT_LIMIT
    requires |batches| * (SELECT_LIMIT - |StuckIds(tables[0], env, at)|) >= |DueIds(tables[0], env, at)|
    ensures |tables[|batches|]| == |tables[0]|
    ensures forall j :: 0 <= j < |tables[0]| ==>
                          tables[|batches|][j] == if Due(tables[0][j], env)
                                                  then Marked(tables[0][j], PlanFor(tables[0][j], env)) else tables[0][j]
  {
    hide PlanFor, Candidate, StuckIds, DueIds, SweepOnce, Selected, UniqueIds;
    var n := |batches|;
    ChainKeeps(tables, batches, env, n, at);
    forall j | 0 <= j < |tables[0]|
      ensures tables[n][j] == if Due(tables[0][j], env)
                              then Marked(tables[0][j], PlanFor(tables[0][j], env)) else tables[0][j]
    {
      var d := tables[0][j];
      ChainFate(tables, batches, env, n, j);
      if Due(d, env) {
        NarrowerSets(tables[0], env, d.createdAt, at);
        MoreRoom(n, SELECT_LIMIT - |StuckIds(tables[0], env, at)|,
                 SELECT_LIMIT - |StuckIds(tables[0], env, d.createdAt)|,
                 |DueIds(tables[0], env, at)|, |DueIds(tables[0], env, d.createdAt)|);
        RowResolved(tables, batches, env, j);
      }
    }
  }

  /** SELECT_LIMIT stuck candidates older than every due message: the sweep changes nothing. */
  lemma Starvation(table: seq<Row>, rows: seq<Row>, env: Env)
    requires UniqueIds(table) && Selected(rows, table, env.now)
    requires forall d :: d in table && Due(d, env) ==> |StuckIds(table, env, d.createdAt - 1)| >= SELECT_LIMIT
    ensures SweepOnce(table, rows, env).table == table && SweepOnce(table, rows, env).resolved == 0
  {
    hide SweepOnce, PlanFor, Candidate, StuckIds, UniqueIds;
    SweepOnceSwept(table, rows, env);
    forall d | d in rows
      ensures !Due(d, env)
    {
      if Due(d, env) { NeverSelected(table, rows, env, d); }
    }
    assert DueIds(rows, env, env.now) == {};
    assert SweepOnce(table, rows, env).table == table;
  }

  // ---- one sweep's loop is a run of the protocol ----

  function RowEvents(i: nat, env: Env): seq<Event> {
    [Decide(i, env), Update(i), Bill(i), Send(i)]
  }

  function SweepEvents(i: nat, envs: seq<Env>): seq<Event> {
    if envs == [] then [] else RowEvents(i, envs[0]) + SweepEvents(i, envs[1..])
  }

  lemma {:induction false} RunAppend(w: World, a: seq<Event>, b: seq<Event>)
    ensures RunFrom(w, a + b) == RunFrom(RunFrom(w, a), b)
    decreases |b|
  {
    if b == [] {
      assert a + b == a;
    } else {
      assert (a + b)[..|a + b| - 1] == a + b[..|b| - 1];
      RunAppend(w, a, b[..|b| - 1]);
    }
  }

  /** Run alone, the protocol steps of a sweep compute what its loop computes. */
  lemma {:induction false} LoopIsRun(w: World, i: nat, rows: seq<Row>, envs: seq<Env>, t: Tally)
    requires |rows| == |envs| && i < |w.sweeps| && w.sweeps[i] == Sweep(rows, Ready)
    requires t.table == w.table && t.counter == w.counter && t.pushes == w.pushes
    ensures var z, v := SweepRows(t, rows, envs), RunFrom(w, SweepEvents(i, envs));
            && z.table == v.table && z.counter == v.counter && z.pushes == v.pushes
            && v.sweeps == w.sweeps[i := Sweep([], Ready)]
    decreases |rows|
  {
    if rows == [] {
      assert w.sweeps == w.sweeps[i := Sweep([], Ready)];
    } else {
      var u := RunFrom(w, RowEvents(i, envs[0]));
      RunAppend(w, RowEvents(i, envs[0]), SweepEvents(i, envs[1..]));
      FourSteps(w, Decide(i, envs[0]), Update(i), Bill(i), Send(i));
      RowIsRun(w, i, rows[0], rows[1..], envs[0], t);
      LoopIsRun(u, i, rows[1..], envs[1..], SweepRow(t, rows[0], envs[0]));
    }
  }

  lemma RowIsRun(w: World, i: nat, r: Row, rest: seq<Row>, env: Env, t: Tally)
    requires i < |w.sweeps| && w.sweeps[i] == Sweep([r] + rest, Ready)
    requires t.table == w.table && t.counter == w.counter && t.pushes == w.pushes
    ensures var z, v := SweepRow(t, r, env), Step(Step(Step(Step(w, Decide(i, env)), Update(i)), Bill(i)), Send(i));
            && z.table == v.table && z.counter == v.counter && z.pushes == v.pushes
            && v.sweeps == w.sweeps[i := Sweep(rest, Ready)]
  {
    hide PlanFor, Bumps, PushFor, GuardedUpdate, AnyHit;
    assert ([r] + rest)[1..] == rest;
    if Resolves(PlanFor(r, env)) && AnyHit(w.table, r.messageId) {
      HitRowIsRun(w, i, r, rest, env, t);
    } else {
      MissedRowIsRun(w, i, r, rest, env, t);
    }
  }

  /** A row that is left alone, or that its guarded update misses: the sweep moves on. */
  lemma MissedRowIsRun(w: World, i: nat, r: Row, rest: seq<Row>, env: Env, t: Tally)
    requires i < |w.sweeps| && w.sweeps[i] == Sweep([r] + rest, Ready)
    requires t.table == w.table && t.counter == w.counter && t.pushes == w.pushes
    requires !Resolves(PlanFor(r, env)) || !AnyHit(w.table, r.messageId)
    ensures var z, v := SweepRow(t, r, env), Step(Step(Step(Step(w, Decide(i, env)), Update(i)), Bill(i)), Send(i));
            && z.table == v.table && z.counter == v.counter && z.pushes == v.pushes
            && v.sweeps == w.sweeps[i := Sweep(rest, Ready)]
  {
    hide PlanFor, Bumps, PushFor, GuardedUpdate, AnyHit;
    var done := w.(sweeps := w.sweeps[i := Sweep(rest, Ready)]);
    assert ([r] + rest)[1..] == rest;
    assert done.sweeps[i] == Sweep(rest, Ready);
    var a := Step(w, Decide(i, env));
    var b := Step(a, Update(i));
    assert b == done by {
      if Resolves(PlanFor(r, env)) {
        assert a == SetPhase(w, i, Planned(env));
        assert Step(a, Update(i)) == NextRow(a, i);
        assert b.sweeps == done.sweeps;
      } else {
        assert a.sweeps == done.sweeps;
      }
    }
    assert Step(done, Bill(i)) == done && Step(done, Send(i)) == done;
  }

  lemma HitRowIsRun(w: World, i: nat, r: Row, rest: seq<Row>, env: Env, t: Tally)
    requires i < |w.sweeps| && w.sweeps[i] == Sweep([r] + rest, Ready)
    requires t.table == w.table && t.counter == w.counter && t.pushes == w.pushes
    requires Resolves(PlanFor(r, env)) && AnyHit(w.table, r.messageId)
    ensures var z, v := SweepRow(t, r, env), Step(Step(Step(Step(w, Decide(i, env)), Update(i)), Bill(i)), Send(i));
            && z.table == v.table && z.counter == v.counter && z.pushes == v.pushes
            && v.sweeps == w.sweeps[i := Sweep(rest, Ready)]
  {
    hide PlanFor, Bumps, PushFor, GuardedUpdate, AnyHit;
    assert ([r] + rest)[1..] == rest;
    var a := Step(w, Decide(i, env));
    assert a == SetPhase(w, i, Planned(env));
    var b := Step(a, Update(i));
    assert b.sweeps[i] == Sweep([r] + rest, Updated(env)) && b.table == GuardedUpdate(w.table, r.messageId, PlanFor(r, env));
    var c := Step(b, Bill(i));
    assert c.sweeps[i] == Sweep([r] + rest, Billed(env)) && c.table == b.table;
    var d := Step(c, Send(i));
    assert d.sweeps == w.sweeps[i := Sweep(rest, Ready)];
  }
}
