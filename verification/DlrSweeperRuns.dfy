/**
 Any number of sweeps of one tenant, interleaved statement by statement, each
 working from the stale rows of its own SELECT, beside other writers of the table.
 */
module DlrSweeperRuns {
  import opened Wrappers
  import opened Charging
  import opened Sequences
  import opened DlrSweeper

  /** Where a sweep stands on its current row. */
  datatype Phase =
    | Ready
    | Planned(env: Env)
    | Updated(env: Env)
    | Billed(env: Env)

  datatype Sweep = Sweep(rows: seq<Row>, phase: Phase)

  /**
   resolved, bumps and pushes log the successful guarded updates, the counter
   bumps and the forced DLRs; abandoned logs rows dropped by an aborted sweep
   after their update.
   */
  datatype World = World(table: seq<Row>, sweeps: seq<Sweep>, counter: int, resolved: seq<string>,
                         bumps: seq<string>, pushes: seq<Push>, abandoned: seq<string>)

  /** Outside: another writer puts any values in a row. */
  datatype Event =
    | Begin(rows: seq<Row>)
    | Decide(i: nat, env: Env)
    | Update(i: nat)
    | Bill(i: nat)
    | Send(i: nat)
    | Abort(i: nat)
    | Insert(row: Row)
    | Outside(j: nat, row: Row)

  predicate At(w: World, i: nat) {
    i < |w.sweeps| && w.sweeps[i].rows != []
  }

  /** Age, parties and amounts: all that a billing decision reads from a row. */
  predicate SameBill(r: Row, r': Row) {
    && r'.createdAt == r.createdAt && r'.clientId == r.clientId && r'.supplierId == r.supplierId
    && r'.destination == r.destination && r'.cost == r.cost && r'.supplierCost == r.supplierCost
  }

  ghost predicate Enabled(w: World, e: Event) {
    match e
    case Begin(rows) => forall k :: 0 <= k < |rows| ==> rows[k] in w.table && Awaiting(rows[k])
    case Decide(i, _) => At(w, i) && w.sweeps[i].phase.Ready?
    case Update(i) => At(w, i) && w.sweeps[i].phase.Planned?
    case Bill(i) => At(w, i) && w.sweeps[i].phase.Updated? && Resolves(PlanFor(w.sweeps[i].rows[0], w.sweeps[i].phase.env))
    case Send(i) => At(w, i) && w.sweeps[i].phase.Billed? && Resolves(PlanFor(w.sweeps[i].rows[0], w.sweeps[i].phase.env))
    case Abort(i) => At(w, i)
    case Insert(row) => forall k :: 0 <= k < |w.table| ==> w.table[k].messageId != row.messageId
    case Outside(j, row) => j < |w.table| && row.messageId == w.table[j].messageId
  }

  function SetPhase(w: World, i: nat, p: Phase): World
    requires At(w, i)
  {
    w.(sweeps := w.sweeps[i := w.sweeps[i].(phase := p)])
  }

  function NextRow(w: World, i: nat): World
    requires At(w, i)
  {
    w.(sweeps := w.sweeps[i := Sweep(w.sweeps[i].rows[1..], Ready)])
  }

  ghost function Do(w: World, e: Event): World
    requires Enabled(w, e)
  {
    match e
    case Begin(rows) => w.(sweeps := w.sweeps + [Sweep(rows, Ready)])
    case Decide(i, env) =>
      if Resolves(PlanFor(w.sweeps[i].rows[0], env)) then SetPhase(w, i, Planned(env)) else NextRow(w, i)
    case Update(i) =>
      var r, env := w.sweeps[i].rows[0], w.sweeps[i].phase.env;
      if Resolves(PlanFor(r, env)) && AnyHit(w.table, r.messageId)
      then SetPhase(w, i, Updated(env)).(table := GuardedUpdate(w.table, r.messageId, PlanFor(r, env)),
                                         resolved := w.resolved + [r.messageId])
      else NextRow(w, i)
    case Bill(i) =>
      var r, env := w.sweeps[i].rows[0], w.sweeps[i].phase.env;
      var w' := SetPhase(w, i, Billed(env));
      if Bumps(r, env) then w'.(counter := w.counter + 1, bumps := w.bumps + [r.messageId]) else w'
    case Send(i) =>
      NextRow(w, i).(pushes := w.pushes + [PushFor(w.sweeps[i].rows[0], w.sweeps[i].phase.env)])
    case Abort(i) =>
      var w' := w.(sweeps := w.sweeps[i := Sweep([], Ready)]);
      if Holds(w.sweeps[i]) then w'.(abandoned := w.abandoned + [w.sweeps[i].rows[0].messageId]) else w'
    case Insert(row) => w.(table := w.table + [row])
    case Outside(j, row) => w.(table := w.table[j := row])
  }

  /** An event that is not enabled changes nothing. */
  ghost function Step(w: World, e: Event): World {
    if Enabled(w, e) then Do(w, e) else w
  }

  ghost function RunFrom(w: World, events: seq<Event>): World {
    if events == [] then w
    else Step(RunFrom(w, events[..|events| - 1]), events[|events| - 1])
  }

  lemma OneMore(w: World, events: seq<Event>, e: Event)
    ensures RunFrom(w, events + [e]) == Step(RunFrom(w, events), e)
  {
    hide Step;
    assert (events + [e])[..|events|] == events;
  }

  lemma FourSteps(w: World, a: Event, b: Event, c: Event, d: Event)
    ensures RunFrom(w, [a, b, c, d]) == Step(Step(Step(Step(w, a), b), c), d)
  {
    hide Step;
    OneMore(w, [], a);
    OneMore(w, [a], b);
    OneMore(w, [a, b], c);
    OneMore(w, [a, b, c], d);
    assert [] + [a] == [a] && [a] + [b] == [a, b] && [a, b] + [c] == [a, b, c] && [a, b, c] + [d] == [a, b, c, d];
  }

  // ---- other writers ----

  /** Another writer leaves a message open that a sweep has resolved. */
  ghost predicate Reopens(w: World, e: Event) {
    e.Outside? && Enabled(w, e) && Awaiting(e.row) && e.row.messageId in w.resolved
  }

  /** Another writer leaves a message open with other parties or amounts than some sweep has read. */
  ghost predicate Rebills(w: World, e: Event) {
    && e.Outside? && Enabled(w, e) && Awaiting(e.row)
    && exists i, copy :: 0 <= i < |w.sweeps| && copy in w.sweeps[i].rows
                         && copy.messageId == e.row.messageId && !SameBill(e.row, copy)
  }

  ghost predicate NoneReopened(w: World, events: seq<Event>) {
    events != [] ==>
      && NoneReopened(w, events[..|events| - 1])
      && !Reopens(RunFrom(w, events[..|events| - 1]), events[|events| - 1])
  }

  ghost predicate NoneRebilled(w: World, events: seq<Event>) {
    events != [] ==>
      && NoneRebilled(w, events[..|events| - 1])
      && !Rebills(RunFrom(w, events[..|events| - 1]), events[|events| - 1])
  }

  lemma {:induction false} SweepsAlone(w: World, events: seq<Event>)
    requires forall k :: 0 <= k < |events| ==> !events[k].Outside?
    ensures NoneReopened(w, events) && NoneRebilled(w, events)
    decreases |events|
  {
    if events != [] {
      SweepsAlone(w, events[..|events| - 1]);
    }
  }

  /** The sweep has updated its current row and still owes the forced DLR. */
  predicate Holds(s: Sweep) {
    s.rows != [] && (s.phase.Updated? || s.phase.Billed?)
  }

  function PushIds(pushes: seq<Push>): (r: seq<string>)
    ensures |r| == |pushes|
    ensures forall k :: 0 <= k < |pushes| ==> r[k] == pushes[k].messageId
  {
    seq(|pushes|, k requires 0 <= k < |pushes| => pushes[k].messageId)
  }

  // ---- at most once ----

  ghost predicate UniqueIds(table: seq<Row>) {
    forall i, j :: 0 <= i < j < |table| ==> table[i].messageId != table[j].messageId
  }

  ghost predicate Known(table: seq<Row>, id: string) {
    exists k :: 0 <= k < |table| && table[k].messageId == id
  }

  /** A resolved message is a row of the table and is never open again. */
  ghost predicate ResolvedClosed(w: World) {
    && UniqueIds(w.table)
    && (forall id :: id in w.resolved ==> Known(w.table, id))
    && (forall k :: 0 <= k < |w.table| && w.table[k].messageId in w.resolved ==> !Awaiting(w.table[k]))
  }

  /** A sweep in mid-row is the only one to have resolved that row. */
  ghost predicate Exclusive(w: World) {
    && (forall i :: 0 <= i < |w.sweeps| && Holds(w.sweeps[i]) ==>
          var id := w.sweeps[i].rows[0].messageId;
          && Resolves(PlanFor(w.sweeps[i].rows[0], w.sweeps[i].phase.env))
          && id in w.resolved && id !in PushIds(w.pushes) && id !in w.abandoned
          && (w.sweeps[i].phase.Updated? ==> id !in w.bumps))
    && (forall i, j :: 0 <= i < j < |w.sweeps| && Holds(w.sweeps[i]) && Holds(w.sweeps[j]) ==>
          w.sweeps[i].rows[0].messageId != w.sweeps[j].rows[0].messageId)
  }

  /** Nothing happens twice, and every effect belongs to a resolution. */
  ghost predicate Once(w: World) {
    && Distinct(w.resolved) && Distinct(PushIds(w.pushes)) && Distinct(w.bumps)
    && (forall id :: id in PushIds(w.pushes) ==> id in w.resolved)
    && (forall id :: id in w.bumps ==> id in w.resolved)
    && (forall id :: id in w.abandoned ==> id in w.resolved && id !in PushIds(w.pushes))
  }

  /** Every resolution has been announced, is about to be, or was cut off by an abort. */
  ghost predicate Accounted(w: World) {
    forall id :: id in w.resolved ==>
                   || id in PushIds(w.pushes) || id in w.abandoned
                   || exists i :: 0 <= i < |w.sweeps| && Holds(w.sweeps[i]) && w.sweeps[i].rows[0].messageId == id
  }

  ghost predicate Safe(w: World) {
    ResolvedClosed(w) && Exclusive(w) && Once(w)
  }

  lemma AppendDistinct(s: seq<string>, x: string)
    requires Distinct(s) && x !in s
    ensures Distinct(s + [x])
  {
  }

  lemma UpdateHits(w: World, i: nat)
    requires Safe(w) && At(w, i) && AnyHit(w.table, w.sweeps[i].rows[0].messageId)
    ensures w.sweeps[i].rows[0].messageId !in w.resolved
    ensures Known(w.table, w.sweeps[i].rows[0].messageId)
  {
  }

  lemma KnownKept(t: seq<Row>, t': seq<Row>)
    requires |t| <= |t'| && forall k :: 0 <= k < |t| ==> t'[k].messageId == t[k].messageId
    ensures forall id :: Known(t, id) ==> Known(t', id)
  {
    forall id | Known(t, id)
      ensures Known(t', id)
    {
      var k :| 0 <= k < |t| && t[k].messageId == id;
      assert t'[k].messageId == id;
    }
  }

  lemma UpdateSafe(w: World, i: nat)
    requires Safe(w) && Enabled(w, Update(i))
    ensures Safe(Do(w, Update(i)))
  {
    hide PlanFor;
    var r, env, w' := w.sweeps[i].rows[0], w.sweeps[i].phase.env, Do(w, Update(i));
    assert forall j :: 0 <= j < |w'.sweeps| && j != i ==> w'.sweeps[j] == w.sweeps[j];
    if Resolves(PlanFor(r, env)) && AnyHit(w.table, r.messageId) {
      UpdateHits(w, i);
      AppendDistinct(w.resolved, r.messageId);
      KnownKept(w.table, w'.table);
      assert Exclusive(w');
    }
  }

  lemma BillSafe(w: World, i: nat)
    requires Safe(w) && Enabled(w, Bill(i))
    ensures Safe(Do(w, Bill(i)))
  {
    hide PlanFor;
    var r, w' := w.sweeps[i].rows[0], Do(w, Bill(i));
    AppendDistinct(w.bumps, r.messageId);
    assert forall j :: 0 <= j < |w'.sweeps| && j != i ==> w'.sweeps[j] == w.sweeps[j];
  }

  lemma SendSafe(w: World, i: nat)
    requires Safe(w) && Enabled(w, Send(i))
    ensures Safe(Do(w, Send(i)))
  {
    hide PlanFor;
    var r, w' := w.sweeps[i].rows[0], Do(w, Send(i));
    AppendDistinct(PushIds(w.pushes), r.messageId);
    assert PushIds(w'.pushes) == PushIds(w.pushes) + [r.messageId];
    assert forall j :: 0 <= j < |w'.sweeps| && j != i ==> w'.sweeps[j] == w.sweeps[j];
  }

  lemma AbortSafe(w: World, i: nat)
    requires Safe(w) && Enabled(w, Abort(i))
    ensures Safe(Do(w, Abort(i)))
  {
    hide PlanFor;
    var w' := Do(w, Abort(i));
    assert forall j :: 0 <= j < |w'.sweeps| && j != i ==> w'.sweeps[j] == w.sweeps[j];
  }

  lemma AdvanceSafe(w: World, i: nat, env: Env)
    requires Safe(w) && Enabled(w, Decide(i, env))
    ensures Safe(Do(w, Decide(i, env)))
  {
    hide PlanFor, Awaiting;
    var w' := Do(w, Decide(i, env));
    assert forall j :: 0 <= j < |w'.sweeps| && j != i ==> w'.sweeps[j] == w.sweeps[j];
    assert !Holds(w'.sweeps[i]);
  }

  lemma BeginSafe(w: World, rows: seq<Row>)
    requires Safe(w) && Enabled(w, Begin(rows))
    ensures Safe(Do(w, Begin(rows)))
  {
    hide PlanFor, Awaiting;
    var w' := Do(w, Begin(rows));
    assert forall j :: 0 <= j < |w.sweeps| ==> w'.sweeps[j] == w.sweeps[j];
    assert !Holds(w'.sweeps[|w.sweeps|]);
  }

  lemma InsertSafe(w: World, row: Row)
    requires Safe(w) && Enabled(w, Insert(row))
    ensures Safe(Do(w, Insert(row)))
  {
    hide PlanFor, Awaiting;
    KnownKept(w.table, w.table + [row]);
    assert Exclusive(Do(w, Insert(row)));
    assert !Known(w.table, row.messageId);
  }

  lemma OutsideSafe(w: World, j: nat, row: Row)
    requires Safe(w) && Enabled(w, Outside(j, row)) && !Reopens(w, Outside(j, row))
    ensures Safe(Do(w, Outside(j, row)))
  {
    hide PlanFor, Awaiting;
    KnownKept(w.table, w.table[j := row]);
    assert Exclusive(Do(w, Outside(j, row)));
  }

  lemma StepSafe(w: World, e: Event)
    requires Safe(w) && !Reopens(w, e)
    ensures Safe(Step(w, e))
  {
    hide Safe, Do, Enabled;
    if Enabled(w, e) {
      match e
      case Begin(rows) => BeginSafe(w, rows);
      case Decide(i, env) => AdvanceSafe(w, i, env);
      case Update(i) => UpdateSafe(w, i);
      case Bill(i) => BillSafe(w, i);
      case Send(i) => SendSafe(w, i);
      case Abort(i) => AbortSafe(w, i);
      case Insert(row) => InsertSafe(w, row);
      case Outside(j, row) => OutsideSafe(w, j, row);
    }
  }

  /** Another writer keeps the protocol safe if and only if it does not reopen a resolved message. */
  lemma OutsideSafeIff(w: World, j: nat, row: Row)
    requires Safe(w) && Enabled(w, Outside(j, row))
    ensures Safe(Step(w, Outside(j, row))) <==> !(Awaiting(row) && row.messageId in w.resolved)
  {
    hide Exclusive, Once;
    if Reopens(w, Outside(j, row)) {
      assert Step(w, Outside(j, row)).table[j] == row;
    } else {
      StepSafe(w, Outside(j, row));
    }
  }

  /** Announcing: every resolution is pushed, still held by its sweep, or abandoned. */
  lemma StepAccounted(w: World, e: Event)
    requires Accounted(w)
    ensures Accounted(Step(w, e))
  {
    hide PlanFor;
    var w' := Step(w, e);
    var sent, sent' := PushIds(w.pushes), PushIds(w'.pushes);
    assert sent' == if e.Send? && Enabled(w, e) then sent + [w.sweeps[e.i].rows[0].messageId] else sent;
    forall id | id in w'.resolved && id !in sent' && id !in w'.abandoned
      ensures exists i :: 0 <= i < |w'.sweeps| && Holds(w'.sweeps[i]) && w'.sweeps[i].rows[0].messageId == id
    {
      if id !in w.resolved {
        assert Holds(w'.sweeps[e.i]);
      } else {
        var i :| 0 <= i < |w.sweeps| && Holds(w.sweeps[i]) && w.sweeps[i].rows[0].messageId == id;
        assert Holds(w'.sweeps[i]);
      }
    }
  }

  // ---- the billing matrix ----

  /**
   What one resolution does to an open row, by the modes of its own client and
   supplier: force_dlr_timeout on either side delivers, charging an unbilled
   on_dlr client its rate and an unpaid supplier only under its own force mode;
   a plain on_dlr client fails with every amount kept; nothing else is resolved.
   */
  ghost predicate ClosedByMatrix(r: Row, r': Row, env: Env) {
    var client, supplier := ClientMode(r, env), SupplierMode(r, env);
    && Awaiting(r) && env.now - r.createdAt >= 1000 * MIN_WINDOW_SECONDS
    && r' == r.(dlrStatus := r'.dlrStatus, status := r'.dlrStatus, dlrSource := r'.dlrSource,
                cost := r'.cost, supplierCost := r'.supplierCost, profit := r'.profit)
    && if client == ForceDlrTimeout || supplier == Some(ForceDlrTimeout) then
         && r'.dlrStatus == Some("DELIVERED") && r'.dlrSource == Some("FORCE_TIMEOUT")
         && r'.profit == r'.cost - r'.supplierCost
         && (if client == OnDlr && r.cost == 0.0
             then r'.cost == Or(env.clientRate(r.destination, r.clientId), 0.0)
             else r'.cost == r.cost)
         && (if (supplier == Some(ForceDlr) || supplier == Some(ForceDlrTimeout)) && r.supplierCost == 0.0
             then r'.supplierCost == Or(env.supplierRate(r.destination, r.supplierId.value), 0.0)
             else r'.supplierCost == r.supplierCost)
       else
         && client == OnDlr
         && r'.dlrStatus == Some("FAILED") && r'.dlrSource == Some("DLR_TIMEOUT")
         && r'.cost == r.cost && r'.supplierCost == r.supplierCost && r'.profit == r.profit
  }

  /** A stale copy names a row of the table, and tells the truth about its bill while it is open. */
  ghost predicate Fits(copy: Row, table: seq<Row>) {
    && Known(table, copy.messageId)
    && forall j :: 0 <= j < |table| && table[j].messageId == copy.messageId && Awaiting(table[j]) ==>
                     SameBill(table[j], copy)
  }

  ghost predicate SnapshotsFit(w: World) {
    forall i, copy :: 0 <= i < |w.sweeps| && copy in w.sweeps[i].rows ==> Fits(copy, w.table)
  }

  ghost predicate Sound(w: World) {
    Safe(w) && SnapshotsFit(w)
  }

  /** How one step changes the table: rows keep their identity, open rows stay as billed, new ids are new. */
  ghost predicate Evolves(t: seq<Row>, t': seq<Row>) {
    && |t| <= |t'|
    && (forall k :: 0 <= k < |t| ==> t'[k].messageId == t[k].messageId)
    && (forall k :: 0 <= k < |t| && Awaiting(t'[k]) ==> Awaiting(t[k]) && SameBill(t'[k], t[k]))
    && (forall k :: |t| <= k < |t'| ==> !Known(t, t'[k].messageId))
  }

  lemma StepEvolves(w: World, e: Event)
    requires !e.Outside?
    ensures Evolves(w.table, Step(w, e).table)
  {
    hide PlanFor, PushFor, Bumps;
  }

  lemma FitsKept(copy: Row, t: seq<Row>, t': seq<Row>)
    requires Fits(copy, t) && Evolves(t, t')
    ensures Fits(copy, t')
  {
    KnownKept(t, t');
  }

  lemma FromTable(copy: Row, table: seq<Row>)
    requires UniqueIds(table) && copy in table
    ensures Fits(copy, table)
  {
  }

  lemma OutsideKeepsSnapshots(w: World, j: nat, row: Row)
    requires SnapshotsFit(w) && Enabled(w, Outside(j, row)) && !Rebills(w, Outside(j, row))
    ensures SnapshotsFit(Do(w, Outside(j, row)))
  {
    var t' := w.table[j := row];
    KnownKept(w.table, t');
    forall i, copy | 0 <= i < |w.sweeps| && copy in w.sweeps[i].rows
      ensures Fits(copy, t')
    {
      assert Fits(copy, w.table);
      assert Awaiting(row) && copy.messageId == row.messageId ==> SameBill(row, copy);
    }
  }

  lemma StepKeepsSnapshots(w: World, e: Event)
    requires UniqueIds(w.table) && SnapshotsFit(w) && !Rebills(w, e)
    ensures SnapshotsFit(Step(w, e))
  {
    if e.Outside? {
      if Enabled(w, e) { OutsideKeepsSnapshots(w, e.j, e.row); }
    } else {
      SweepKeepsSnapshots(w, e);
    }
  }

  lemma SweepKeepsSnapshots(w: World, e: Event)
    requires UniqueIds(w.table) && SnapshotsFit(w) && !e.Outside?
    ensures SnapshotsFit(Step(w, e))
  {
    hide PlanFor;
    var w' := Step(w, e);
    StepEvolves(w, e);
    forall i, copy | 0 <= i < |w'.sweeps| && copy in w'.sweeps[i].rows
      ensures Fits(copy, w'.table)
    {
      if i < |w.sweeps| {
        assert copy in w.sweeps[i].rows;
        FitsKept(copy, w.table, w'.table);
      } else {
        FromTable(copy, w.table);
      }
    }
  }

  lemma StepSound(w: World, e: Event)
    requires Sound(w) && !Reopens(w, e) && !Rebills(w, e)
    ensures Sound(Step(w, e))
  {
    StepSafe(w, e);
    StepKeepsSnapshots(w, e);
  }

  /** A guarded update closes at most one row, open before, as the matrix says; every other row stays. */
  lemma UpdateFollowsMatrix(w: World, i: nat, j: nat)
    requires Sound(w) && Enabled(w, Update(i)) && j < |w.table|
    ensures var r, r' := w.table[j], Step(w, Update(i)).table[j];
            || r' == r
            || ClosedByMatrix(r, r', w.sweeps[i].phase.env)
    ensures forall k :: 0 <= k < |w.table| && k != j ==>
                          Step(w, Update(i)).table[j] == w.table[j] || Step(w, Update(i)).table[k] == w.table[k]
  {
    var copy, env, r := w.sweeps[i].rows[0], w.sweeps[i].phase.env, w.table[j];
    if Hits(r, copy.messageId) {
      assert Fits(copy, w.table);
      assert SameBill(r, copy);
    }
    OneRowChanges(w, i, j);
  }

  lemma OneRowChanges(w: World, i: nat, j: nat)
    requires UniqueIds(w.table) && Enabled(w, Update(i)) && j < |w.table|
    ensures forall k :: 0 <= k < |w.table| && k != j ==>
                          Step(w, Update(i)).table[j] == w.table[j] || Step(w, Update(i)).table[k] == w.table[k]
  {
    hide PlanFor;
  }

  // ---- main results ----

  /** A table with distinct ids and no sweep yet. */
  ghost predicate Fresh(w: World) {
    && UniqueIds(w.table) && w.sweeps == []
    && w.resolved == [] && w.bumps == [] && w.pushes == [] && w.abandoned == []
  }

  lemma {:induction false} RunSafe(w: World, events: seq<Event>)
    requires Fresh(w) && NoneReopened(w, events)
    ensures Safe(RunFrom(w, events)) && Accounted(RunFrom(w, events))
    decreases |events|
  {
    if events != [] {
      hide Safe, Accounted, Step, Reopens;
      var before := events[..|events| - 1];
      RunSafe(w, before);
      StepSafe(RunFrom(w, before), events[|events| - 1]);
      StepAccounted(RunFrom(w, before), events[|events| - 1]);
    }
  }

  lemma {:induction false} RunSound(w: World, events: seq<Event>)
    requires Fresh(w) && NoneReopened(w, events) && NoneRebilled(w, events)
    ensures Sound(RunFrom(w, events)) && Accounted(RunFrom(w, events))
    decreases |events|
  {
    RunSafe(w, events);
    if events != [] {
      hide Safe, Accounted, Step, Reopens, Rebills;
      var before := events[..|events| - 1];
      RunSound(w, before);
      StepSound(RunFrom(w, before), events[|events| - 1]);
    }
  }

  /**
   However sweeps interleave, and whatever other writers do short of reopening a
   resolved message: each message is resolved, pushed and counted at most once.
   */
  lemma AtMostOnce(w: World, events: seq<Event>)
    requires Fresh(w) && NoneReopened(w, events)
    ensures var z := RunFrom(w, events);
            && Distinct(z.resolved) && Distinct(PushIds(z.pushes)) && Distinct(z.bumps)
            && (forall id :: id in PushIds(z.pushes) || id in z.bumps ==> id in z.resolved)
            && (forall k :: 0 <= k < |z.table| && z.table[k].messageId in z.resolved ==> !Awaiting(z.table[k]))
  {
    RunSafe(w, events);
  }

  lemma SelectResolves(o: World, row: Row, env: Env)
    requires row in o.table && Awaiting(row) && Resolves(PlanFor(row, env))
    ensures var i := |o.sweeps|;
            Step(Step(Step(o, Begin([row])), Decide(i, env)), Update(i)).resolved == o.resolved + [row.messageId]
  {
    hide PlanFor;
    var i := |o.sweeps|;
    var a := Step(o, Begin([row]));
    assert a.sweeps[i] == Sweep([row], Ready);
    var b := Step(a, Decide(i, env));
    assert b.sweeps[i] == Sweep([row], Planned(env)) && b.table == o.table;
    var k :| 0 <= k < |o.table| && o.table[k] == row;
    assert Hits(b.table[k], row.messageId);
  }

  lemma AppendedTwice(s: seq<string>, x: string)
    requires x in s
    ensures !Distinct(s + [x])
  {
    var k :| 0 <= k < |s| && s[k] == x;
    assert (s + [x])[k] == (s + [x])[|s|];
  }

  /** A reopened message is resolved once more by the next sweep that finds it due. */
  lemma ReopenedResolvesTwice(w: World, j: nat, row: Row, env: Env)
    requires Enabled(w, Outside(j, row)) && Reopens(w, Outside(j, row)) && Resolves(PlanFor(row, env))
    ensures var i := |w.sweeps|;
            var z := RunFrom(w, [Outside(j, row), Begin([row]), Decide(i, env), Update(i)]);
            z.resolved == w.resolved + [row.messageId] && !Distinct(z.resolved)
  {
    hide PlanFor, RunFrom;
    var i, o := |w.sweeps|, Step(w, Outside(j, row));
    assert o.table[j] == row && o.resolved == w.resolved && |o.sweeps| == i;
    FourSteps(w, Outside(j, row), Begin([row]), Decide(i, env), Update(i));
    hide Step;
    SelectResolves(o, row, env);
    AppendedTwice(w.resolved, row.messageId);
  }

  // ---- messages opened for the first time ----

  ghost predicate Closed(table: seq<Row>, id: string) {
    forall k :: 0 <= k < |table| && table[k].messageId == id ==> !Awaiting(table[k])
  }

  /** So far in this run the message has waited for no receipt. */
  ghost predicate NeverOpen(w: World, events: seq<Event>, id: string) {
    Closed(RunFrom(w, events).table, id) && (events != [] ==> NeverOpen(w, events[..|events| - 1], id))
  }

  /** No sweep has read or resolved this message. */
  ghost predicate Unread(w: World, id: string) {
    id !in w.resolved && forall i, copy :: 0 <= i < |w.sweeps| && copy in w.sweeps[i].rows ==> copy.messageId != id
  }

  lemma StepUnread(w: World, e: Event, id: string)
    requires Unread(w, id) && Closed(w.table, id)
    ensures Unread(Step(w, e), id)
  {
    hide PlanFor, PushFor, Bumps, GuardedUpdate, Awaiting;
    var w' := Step(w, e);
    forall i, copy | 0 <= i < |w'.sweeps| && copy in w'.sweeps[i].rows
      ensures copy.messageId != id
    {
      if i < |w.sweeps| {
        assert copy in w.sweeps[i].rows;
      } else {
        assert copy in w.table && Awaiting(copy);
      }
    }
  }

  lemma {:induction false} NeverOpenUnread(w: World, events: seq<Event>, id: string)
    requires Fresh(w) && NeverOpen(w, events, id)
    ensures Unread(RunFrom(w, events), id)
    decreases |events|
  {
    if events != [] {
      hide Step, Unread, Closed;
      var before := events[..|events| - 1];
      NeverOpenUnread(w, before, id);
      StepUnread(RunFrom(w, before), events[|events| - 1], id);
    }
  }

  /** Opening a message for the first time, with any parties and amounts, neither reopens nor rebills. */
  lemma FirstOpeningIsAllowed(w: World, events: seq<Event>, e: Event)
    requires Fresh(w) && e.Outside? && NeverOpen(w, events, e.row.messageId)
    ensures !Reopens(RunFrom(w, events), e) && !Rebills(RunFrom(w, events), e)
  {
    NeverOpenUnread(w, events, e.row.messageId);
  }

  // ---- pushed exactly once ----

  lemma {:induction false} NoAborts(w: World, events: seq<Event>)
    requires Fresh(w) && forall k :: 0 <= k < |events| ==> !events[k].Abort?
    ensures RunFrom(w, events).abandoned == []
    decreases |events|
  {
    if events != [] {
      NoAborts(w, events[..|events| - 1]);
    }
  }

  /** When all sweeps are done, the messages pushed exactly once are those resolved and not abandoned by an abort. */
  lemma ExactlyOncePushed(w: World, events: seq<Event>, id: string)
    requires Fresh(w) && NoneReopened(w, events)
    requires var z := RunFrom(w, events); forall i :: 0 <= i < |z.sweeps| ==> z.sweeps[i].rows == []
    ensures var z := RunFrom(w, events);
            multiset(PushIds(z.pushes))[id] == 1 <==> id in z.resolved && id !in z.abandoned
  {
    var z := RunFrom(w, events);
    RunSafe(w, events);
    DistinctCounts(PushIds(z.pushes));
    assert multiset(PushIds(z.pushes))[id] <= 1;
    assert id in z.resolved && id !in z.abandoned ==> id in PushIds(z.pushes);
  }

  /** When no sweep was cut off and all are done, the messages resolved are exactly those pushed exactly once. */
  lemma EveryResolutionPushed(w: World, events: seq<Event>, id: string)
    requires Fresh(w) && NoneReopened(w, events) && forall k :: 0 <= k < |events| ==> !events[k].Abort?
    requires var z := RunFrom(w, events); forall i :: 0 <= i < |z.sweeps| ==> z.sweeps[i].rows == []
    ensures var z := RunFrom(w, events);
            id in z.resolved <==> multiset(PushIds(z.pushes))[id] == 1
  {
    NoAborts(w, events);
    ExactlyOncePushed(w, events, id);
  }

  /** The counter grows by exactly one for each bumped message. */
  lemma {:induction false} CounterMatchesBumps(w: World, events: seq<Event>)
    requires Fresh(w)
    ensures RunFrom(w, events).counter == w.counter + |RunFrom(w, events).bumps|
    decreases |events|
  {
    if events != [] {
      CounterMatchesBumps(w, events[..|events| - 1]);
    }
  }

  /** The environments some row was decided under in this run. */
  ghost predicate Used(events: seq<Event>, env: Env) {
    exists k :: 0 <= k < |events| && events[k].Decide? && events[k].env == env
  }

  /** What a run of sweeps alone can do to a row: nothing, or one resolution by the matrix. */
  ghost predicate Fate(r: Row, r': Row, events: seq<Event>) {
    r' == r || exists env :: Used(events, env) && ClosedByMatrix(r, r', env)
  }

  ghost predicate PhasesUsed(w: World, events: seq<Event>) {
    forall i :: 0 <= i < |w.sweeps| && !w.sweeps[i].phase.Ready? ==> Used(events, w.sweeps[i].phase.env)
  }

  lemma UsedGrows(events: seq<Event>, e: Event)
    ensures forall env :: Used(events, env) ==> Used(events + [e], env)
    ensures e.Decide? ==> Used(events + [e], e.env)
  {
    forall env | Used(events, env)
      ensures Used(events + [e], env)
    {
      var k :| 0 <= k < |events| && events[k].Decide? && events[k].env == env;
      assert (events + [e])[k].env == env;
    }
    assert (events + [e])[|events|] == e;
  }

  /** A step of some sweep moves a row from one fate to the next. */
  lemma FateStep(w: World, e: Event, r: Row, j: nat, before: seq<Event>)
    requires Sound(w) && !e.Outside? && j < |w.table|
    requires PhasesUsed(w, before) && Fate(r, w.table[j], before)
    ensures j < |Step(w, e).table| && Fate(r, Step(w, e).table[j], before + [e])
  {
    hide PlanFor, Safe, SnapshotsFit;
    UsedGrows(before, e);
    var q := w.table[j];
    if e.Update? && Enabled(w, e) {
      UpdateFollowsMatrix(w, e.i, j);
      hide ClosedByMatrix;
      assert Used(before, w.sweeps[e.i].phase.env);
      if Step(w, e).table[j] != q {
        assert Awaiting(q);
        NotClosedYet(r, q, before);
      }
    } else {
      assert Step(w, e).table[j] == q;
    }
  }

  lemma NotClosedYet(r: Row, q: Row, events: seq<Event>)
    requires Fate(r, q, events) && Awaiting(q)
    ensures q == r
  {
  }

  lemma PhasesGrow(w: World, e: Event, before: seq<Event>)
    requires PhasesUsed(w, before)
    ensures PhasesUsed(Step(w, e), before + [e])
  {
    hide PlanFor, Used;
    UsedGrows(before, e);
  }

  /** The money rules over whole runs of sweeps, in any interleaving. */
  lemma {:induction false} MoneyRules(w: World, events: seq<Event>)
    requires Fresh(w) && forall k :: 0 <= k < |events| ==> !events[k].Outside?
    ensures var z := RunFrom(w, events);
            && |w.table| <= |z.table|
            && PhasesUsed(z, events)
            && forall j :: 0 <= j < |w.table| ==> Fate(w.table[j], z.table[j], events)
    decreases |events|
  {
    if events != [] {
      hide Fate, PhasesUsed, Fresh;
      var before, e := events[..|events| - 1], events[|events| - 1];
      var y, z := RunFrom(w, before), Step(RunFrom(w, before), e);
      assert events == before + [e];
      MoneyRules(w, before);
      SweepsAlone(w, before);
      RunSound(w, before);
      PhasesGrow(y, e, before);
      forall j | 0 <= j < |w.table|
        ensures |w.table| <= |z.table| && Fate(w.table[j], z.table[j], events)
      {
        FateStep(y, e, w.table[j], j, before);
      }
    }
  }

  lemma {:induction false} RunPhases(w: World, events: seq<Event>)
    requires Fresh(w)
    ensures PhasesUsed(RunFrom(w, events), events)
    decreases |events|
  {
    if events != [] {
      hide PhasesUsed, Step;
      var before, e := events[..|events| - 1], events[|events| - 1];
      RunPhases(w, before);
      PhasesGrow(RunFrom(w, before), e, before);
      assert events == before + [e];
    } else {
      assert RunFrom(w, events).sweeps == [];
    }
  }

  /**
   Beside other writers that reopen and rebill nothing, every step of a sweep
   leaves a row alone or closes it by the matrix, under an environment some
   sweep has read.
   */
  lemma SweepStepsFollowMatrix(w: World, events: seq<Event>, e: Event, j: nat)
    requires Fresh(w) && NoneReopened(w, events) && NoneRebilled(w, events)
    requires !e.Outside? && j < |RunFrom(w, events).table|
    ensures var y, z := RunFrom(w, events), Step(RunFrom(w, events), e);
            j < |z.table| && Fate(y.table[j], z.table[j], events)
  {
    hide PlanFor, Safe, SnapshotsFit, RunFrom;
    var y := RunFrom(w, events);
    RunSound(w, events);
    RunPhases(w, events);
    if e.Update? && Enabled(y, e) {
      UpdateFollowsMatrix(y, e.i, j);
      assert Used(events, y.sweeps[e.i].phase.env);
    } else {
      assert Step(y, e).table[j] == y.table[j];
    }
  }

  /** Rows whose client is never on_dlr and whose parties are never force_dlr_timeout stay as they are. */
  lemma Untouched(w: World, events: seq<Event>, j: nat)
    requires Fresh(w) && j < |w.table| && forall k :: 0 <= k < |events| ==> !events[k].Outside?
    requires forall env :: Used(events, env) ==>
                             && ClientMode(w.table[j], env) != OnDlr
                             && ClientMode(w.table[j], env) != ForceDlrTimeout
                             && SupplierMode(w.table[j], env) != Some(ForceDlrTimeout)
    ensures |w.table| <= |RunFrom(w, events).table| && RunFrom(w, events).table[j] == w.table[j]
  {
    MoneyRules(w, events);
    assert Fate(w.table[j], RunFrom(w, events).table[j], events);
  }

  ghost predicate ProfitHolds(table: seq<Row>) {
    forall j :: 0 <= j < |table| ==> table[j].profit == table[j].cost - table[j].supplierCost
  }

  lemma StepKeepsProfit(w: World, e: Event)
    requires ProfitHolds(w.table)
    requires e.Insert? || e.Outside? ==> e.row.profit == e.row.cost - e.row.supplierCost
    ensures ProfitHolds(Step(w, e).table)
  {
    hide PlanFor, PushFor, Bumps;
  }

  /** profit = cost - supplier_cost survives every run in which other writers keep it. */
  lemma {:induction false} ProfitKept(w: World, events: seq<Event>)
    requires ProfitHolds(w.table)
    requires forall k :: 0 <= k < |events| && (events[k].Insert? || events[k].Outside?) ==>
                           events[k].row.profit == events[k].row.cost - events[k].row.supplierCost
    ensures ProfitHolds(RunFrom(w, events).table)
    decreases |events|
  {
    if events != [] {
      hide Step, ProfitHolds;
      ProfitKept(w, events[..|events| - 1]);
      StepKeepsProfit(RunFrom(w, events[..|events| - 1]), events[|events| - 1]);
    }
  }
}
