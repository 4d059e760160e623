/** What forced receipts and counter bumps say, against the rows of the table, over every interleaving. */
module DlrSweeperReceipts {
  import opened Wrappers
  import opened DlrSweeper
  import opened DlrSweeperRuns

  /** The receipt tells the client what this row says. */
  predicate Tells(p: Push, r: Row) {
    && r.messageId == p.messageId
    && r.dlrStatus == Some(if p.delivered then "DELIVERED" else "FAILED")
    && p.cost == if p.delivered then r.cost else 0.0
  }

  ghost predicate ToldInTable(p: Push, table: seq<Row>) {
    exists k :: 0 <= k < |table| && Tells(p, table[k])
  }

  ghost predicate DeliveredInTable(id: string, table: seq<Row>) {
    exists k :: 0 <= k < |table| && table[k].messageId == id && table[k].dlrStatus == Some("DELIVERED")
  }

  /** Receipts sent and receipts owed agree with the table; bumped messages are delivered ones. */
  ghost predicate Truthful(w: World) {
    && (forall k :: 0 <= k < |w.pushes| ==> ToldInTable(w.pushes[k], w.table))
    && (forall i :: 0 <= i < |w.sweeps| && Holds(w.sweeps[i]) ==> Owes(w.sweeps[i], w.table))
    && (forall id :: id in w.bumps ==> DeliveredInTable(id, w.table))
  }

  ghost predicate Owes(s: Sweep, table: seq<Row>)
    requires Holds(s)
  {
    Resolves(PlanFor(s.rows[0], s.phase.env)) && ToldInTable(PushFor(s.rows[0], s.phase.env), table)
  }

  /** Another writer changes a message that a sweep has resolved. */
  ghost predicate Touches(w: World, e: Event) {
    e.Outside? && Enabled(w, e) && e.row.messageId in w.resolved && e.row != w.table[e.j]
  }

  ghost predicate NoneTouched(w: World, events: seq<Event>) {
    events != [] ==>
      && NoneTouched(w, events[..|events| - 1])
      && !Touches(RunFrom(w, events[..|events| - 1]), events[|events| - 1])
  }

  /** The rows of resolved messages stay as they are. */
  ghost predicate KeepsResolved(w: World, t': seq<Row>) {
    |w.table| <= |t'| && forall k :: 0 <= k < |w.table| && w.table[k].messageId in w.resolved ==> t'[k] == w.table[k]
  }

  lemma StepKeepsResolved(w: World, e: Event)
    requires Safe(w) && !Touches(w, e)
    ensures KeepsResolved(w, Step(w, e).table)
  {
    hide PlanFor, PushFor, Bumps, Exclusive, Once;
  }

  /** A writer that leaves resolved messages alone reopens none. */
  lemma UntouchedNotReopened(w: World, e: Event)
    requires Safe(w) && !Touches(w, e)
    ensures !Reopens(w, e)
  {
    hide Exclusive, Once;
  }

  lemma ToldKept(p: Push, w: World, t': seq<Row>)
    requires ToldInTable(p, w.table) && p.messageId in w.resolved && KeepsResolved(w, t')
    ensures ToldInTable(p, t')
  {
    var k :| 0 <= k < |w.table| && Tells(p, w.table[k]);
    assert Tells(p, t'[k]);
  }

  lemma DeliveredKept(id: string, w: World, t': seq<Row>)
    requires DeliveredInTable(id, w.table) && id in w.resolved && KeepsResolved(w, t')
    ensures DeliveredInTable(id, t')
  {
    var k :| 0 <= k < |w.table| && w.table[k].messageId == id && w.table[k].dlrStatus == Some("DELIVERED");
    assert t'[k] == w.table[k];
  }

  /** A successful guarded update makes the row say what its receipt will tell. */
  lemma UpdateTells(table: seq<Row>, r: Row, env: Env)
    requires Resolves(PlanFor(r, env)) && AnyHit(table, r.messageId)
    ensures ToldInTable(PushFor(r, env), GuardedUpdate(table, r.messageId, PlanFor(r, env)))
  {
    hide PlanFor;
    var k :| 0 <= k < |table| && Hits(table[k], r.messageId);
    assert Tells(PushFor(r, env), GuardedUpdate(table, r.messageId, PlanFor(r, env))[k]);
  }

  /** Every sweep that owes a receipt after a step owed it before, or has just made its update. */
  lemma StepOwes(w: World, e: Event, i: nat)
    requires Safe(w) && Truthful(w) && KeepsResolved(w, Step(w, e).table)
    requires i < |Step(w, e).sweeps| && Holds(Step(w, e).sweeps[i])
    ensures Owes(Step(w, e).sweeps[i], Step(w, e).table)
  {
    hide PlanFor, Bumps, GuardedUpdate, ToldInTable, KeepsResolved, ResolvedClosed, Once;
    var w' := Step(w, e);
    if i < |w.sweeps| && Holds(w.sweeps[i]) {
      var r, env := w.sweeps[i].rows[0], w.sweeps[i].phase.env;
      assert Owes(w.sweeps[i], w.table);
      assert w'.sweeps[i].rows[0] == r && w'.sweeps[i].phase.env == env;
      ToldKept(PushFor(r, env), w, w'.table);
    } else {
      assert e == Event.Update(i) && Enabled(w, e);
      UpdateTells(w.table, w.sweeps[i].rows[0], w.sweeps[i].phase.env);
    }
  }

  lemma StepTold(w: World, e: Event, k: nat)
    requires Safe(w) && Truthful(w) && KeepsResolved(w, Step(w, e).table) && k < |Step(w, e).pushes|
    ensures ToldInTable(Step(w, e).pushes[k], Step(w, e).table)
  {
    hide PlanFor, PushFor, Bumps, GuardedUpdate, ToldInTable, KeepsResolved, ResolvedClosed, Exclusive;
    var w' := Step(w, e);
    if k < |w.pushes| {
      assert w'.pushes[k] == w.pushes[k];
      assert PushIds(w.pushes)[k] in PushIds(w.pushes);
      ToldKept(w.pushes[k], w, w'.table);
    } else {
      assert e.Send? && Enabled(w, e) && Owes(w.sweeps[e.i], w.table);
    }
  }

  lemma StepDelivered(w: World, e: Event, id: string)
    requires Safe(w) && Truthful(w) && KeepsResolved(w, Step(w, e).table) && id in Step(w, e).bumps
    ensures DeliveredInTable(id, Step(w, e).table)
  {
    hide PlanFor, GuardedUpdate, DeliveredInTable, KeepsResolved, ResolvedClosed, Exclusive;
    var w' := Step(w, e);
    if id in w.bumps {
      DeliveredKept(id, w, w'.table);
    } else {
      assert e.Bill? && Enabled(w, e) && Owes(w.sweeps[e.i], w.table);
      var r, env := w.sweeps[e.i].rows[0], w.sweeps[e.i].phase.env;
      assert id == r.messageId && Bumps(r, env);
      ToldDelivered(PushFor(r, env), w.table);
    }
  }

  lemma ToldDelivered(p: Push, table: seq<Row>)
    requires ToldInTable(p, table) && p.delivered
    ensures DeliveredInTable(p.messageId, table)
  {
  }

  lemma StepTruthful(w: World, e: Event)
    requires Safe(w) && Truthful(w) && !Touches(w, e)
    ensures Truthful(Step(w, e))
  {
    hide Step, Safe, ToldInTable, DeliveredInTable, Owes, KeepsResolved, Touches;
    var w' := Step(w, e);
    StepKeepsResolved(w, e);
    forall i | 0 <= i < |w'.sweeps| && Holds(w'.sweeps[i])
      ensures Owes(w'.sweeps[i], w'.table)
    {
      StepOwes(w, e, i);
    }
    forall k | 0 <= k < |w'.pushes|
      ensures ToldInTable(w'.pushes[k], w'.table)
    {
      StepTold(w, e, k);
    }
    forall id | id in w'.bumps
      ensures DeliveredInTable(id, w'.table)
    {
      StepDelivered(w, e, id);
    }
  }

  /**
   However sweeps interleave, and whatever other writers do to messages that no
   sweep has resolved: every forced receipt carries the status and the price its
   row has, and every bump of the counter is for a delivered message.
   */
  lemma {:induction false} ReceiptsMatchTable(w: World, events: seq<Event>)
    requires Fresh(w) && NoneTouched(w, events)
    ensures var z := RunFrom(w, events);
            && (forall k :: 0 <= k < |z.pushes| ==> ToldInTable(z.pushes[k], z.table))
            && (forall id :: id in z.bumps ==> DeliveredInTable(id, z.table))
    ensures Safe(RunFrom(w, events)) && Truthful(RunFrom(w, events))
    decreases |events|
  {
    if events != [] {
      hide Step, Safe, Touches, Reopens, ToldInTable, DeliveredInTable, Owes;
      var y, e := RunFrom(w, events[..|events| - 1]), events[|events| - 1];
      ReceiptsMatchTable(w, events[..|events| - 1]);
      UntouchedNotReopened(y, e);
      StepSafe(y, e);
      StepTruthful(y, e);
    }
  }
}
