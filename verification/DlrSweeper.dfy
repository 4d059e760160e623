/**
 The stale-DLR sweeper: the pure decision for one message, the guarded table
 updates, and the loop of one sweep over the rows its SELECT returned.

 A table is a sequence of rows. Clocks, configuration reads and rate look-ups
 made for a row are gathered in an `Env`, one per row, since each row reads
 them anew.
 */
module DlrSweeper {
  import opened Wrappers
  import opened Charging

  const MIN_WINDOW_SECONDS := 60
  const DEFAULT_TIMEOUT_SECONDS := 300
  const SELECT_LIMIT := 200

  datatype Connection = CustomApi | BusinessApi | OtherConnection

  datatype Row = Row(messageId: string, clientId: int, supplierId: Option<int>, destination: string,
                     connection: Connection, hasCallback: bool, createdAt: int, dlrStatus: Option<string>, status: Option<string>,
                     dlrSource: Option<string>, cost: real, supplierCost: real, profit: real)

  /** `timeout` is the parsed dlr_timeout column; None when it is NULL or not a number. */
  datatype ClientConfig = ClientConfig(columns: ModeColumns, timeout: Option<int>, isSmpp: bool)
  datatype SupplierConfig = SupplierConfig(columns: ModeColumns, timeout: Option<int>)

  /** What processing one row reads: None stands for a missing row or a failed query. */
  datatype Env = Env(now: int, clients: map<int, ClientConfig>, suppliers: map<int, SupplierConfig>,
                     clientRate: (string, int) -> Option<real>, supplierRate: (string, int) -> Option<real>,
                     counterWorks: bool)

  datatype Action = DeliverAction | FailAction | SkipAction
  datatype Decision = Decision(action: Action, windowSeconds: int, due: bool)

  /** The pure decision; the age is in milliseconds. */
  function ResolveStaleDlrAction(clientMode: ChargingMode, supplierMode: Option<ChargingMode>, ageMs: int,
                                 clientTimeout: int, supplierTimeout: Option<int>): Decision
  {
    var ct := if clientTimeout > 0 then clientTimeout else DEFAULT_TIMEOUT_SECONDS;
    var st := if supplierTimeout.Some? && supplierTimeout.value > 0 then supplierTimeout.value else ct;
    var force := IsForceDlrTimeout(clientMode)
                 || IsForceDlrTimeout(if supplierMode.Some? then supplierMode.value else OnSubmit);
    var window := Max(MIN_WINDOW_SECONDS, if force then Min(ct, st) else ct);
    var due := ageMs >= 1000 * window;
    if force then Decision(DeliverAction, window, due)
    else if IsDlrCharged(clientMode) then Decision(FailAction, window, due)
    else Decision(SkipAction, window, due)
  }

  /**
   The decision in its own terms: force_dlr_timeout on either side delivers, and
   only otherwise an on_dlr client fails; nothing is due within a minute, nor
   before the client's window unless a forced delivery has a shorter supplier one.
   */
  lemma DecisionRules(clientMode: ChargingMode, supplierMode: Option<ChargingMode>, ageMs: int,
                      clientTimeout: int, supplierTimeout: Option<int>)
    ensures var d := ResolveStaleDlrAction(clientMode, supplierMode, ageMs, clientTimeout, supplierTimeout);
            var forced := clientMode == ForceDlrTimeout || supplierMode == Some(ForceDlrTimeout);
            var clientMs := 1000 * if clientTimeout > 0 then clientTimeout else DEFAULT_TIMEOUT_SECONDS;
            var supplierIsDue := supplierTimeout.Some? && supplierTimeout.value > 0 && ageMs >= 1000 * supplierTimeout.value;
            && (d.action == DeliverAction <==> forced)
            && (d.action == FailAction <==> !forced && clientMode == OnDlr)
            && (d.due <==> ageMs >= 60_000 && (ageMs >= clientMs || (forced && supplierIsDue)))
  {
  }

  /** `parseInt(column || "300") || 300`. */
  function ParsedTimeout(t: Option<int>): int {
    if t.Some? && t.value != 0 then t.value else DEFAULT_TIMEOUT_SECONDS
  }

  predicate HasSupplier(r: Row) {
    r.supplierId.Some? && r.supplierId.value != 0
  }

  function ClientMode(r: Row, env: Env): ChargingMode {
    if r.clientId in env.clients then ResolveChargingMode(env.clients[r.clientId].columns) else OnSubmit
  }

  function SupplierMode(r: Row, env: Env): Option<ChargingMode> {
    if HasSupplier(r) && r.supplierId.value in env.suppliers
    then Some(ResolveChargingMode(env.suppliers[r.supplierId.value].columns)) else None
  }

  function DecisionFor(r: Row, env: Env): Decision {
    var ct := if r.clientId in env.clients then ParsedTimeout(env.clients[r.clientId].timeout)
              else DEFAULT_TIMEOUT_SECONDS;
    var st := if SupplierMode(r, env).Some? then Some(ParsedTimeout(env.suppliers[r.supplierId.value].timeout))
              else None;
    ResolveStaleDlrAction(ClientMode(r, env), SupplierMode(r, env), env.now - r.createdAt, ct, st)
  }

  predicate SupplierForced(r: Row, env: Env) {
    var m := SupplierMode(r, env);
    m.Some? && (IsForceDlr(m.value) || IsForceDlrTimeout(m.value))
  }

  /** What the loop body intends for a row: Bypass is the business-API backstop, which tallies nothing. */
  datatype Plan =
    | Bypass
    | Leave
    | MarkFailed
    | MarkDelivered(cost: real, supplierCost: real)

  /** The looked-up rate, or the value kept when the look-up throws. */
  function Or(rate: Option<real>, kept: real): real {
    if rate.Some? then rate.value else kept
  }

  function PlanFor(r: Row, env: Env): Plan {
    var d := DecisionFor(r, env);
    if r.connection == BusinessApi then Bypass
    else if !d.due || d.action == SkipAction then Leave
    else if d.action == FailAction then MarkFailed
    else
      var cost := if IsDlrCharged(ClientMode(r, env)) && r.cost == 0.0
                  then Or(env.clientRate(r.destination, r.clientId), r.cost) else r.cost;
      var supplierCost := if SupplierForced(r, env) && r.supplierCost == 0.0 && HasSupplier(r)
                          then Or(env.supplierRate(r.destination, r.supplierId.value), 0.0) else r.supplierCost;
      MarkDelivered(cost, supplierCost)
  }

  predicate Resolves(p: Plan) {
    p.MarkFailed? || p.MarkDelivered?
  }

  predicate Awaiting(r: Row) {
    r.dlrStatus == Some("SENT") || r.dlrStatus == Some("PENDING")
  }

  /** The WHERE clause of the candidate SELECT. */
  predicate Candidate(r: Row, now: int) {
    && Awaiting(r)
    && r.status.Some? && r.status.value != "FAILED" && r.status.value != "REJECTED"
    && r.connection == OtherConnection
    && r.createdAt < now - 1000 * MIN_WINDOW_SECONDS
  }

  function Marked(r: Row, p: Plan): Row
    requires Resolves(p)
  {
    match p
    case MarkFailed => r.(dlrStatus := Some("FAILED"), status := Some("FAILED"), dlrSource := Some("DLR_TIMEOUT"))
    case MarkDelivered(cost, supplierCost) =>
      r.(dlrStatus := Some("DELIVERED"), status := Some("DELIVERED"), dlrSource := Some("FORCE_TIMEOUT"),
         cost := cost, supplierCost := supplierCost, profit := cost - supplierCost)
  }

  /** Rows the guarded UPDATE matches: this id, still awaiting a DLR. */
  predicate Hits(r: Row, id: string) {
    r.messageId == id && Awaiting(r)
  }

  function GuardedUpdate(table: seq<Row>, id: string, p: Plan): (t: seq<Row>)
    requires Resolves(p)
    ensures |t| == |table|
  {
    seq(|table|, i requires 0 <= i < |table| => if Hits(table[i], id) then Marked(table[i], p) else table[i])
  }

  predicate AnyHit(table: seq<Row>, id: string) {
    exists i | 0 <= i < |table| :: Hits(table[i], id)
  }

  /** One forced DLR: to the webhook when there is one, to the SMPP queue when the client is an ESME. */
  datatype Push = Push(messageId: string, delivered: bool, cost: real, webhook: bool, smpp: bool)

  function PushFor(r: Row, env: Env): Push
    requires Resolves(PlanFor(r, env))
  {
    var p := PlanFor(r, env);
    Push(r.messageId, p.MarkDelivered?, if p.MarkDelivered? then p.cost else 0.0, r.hasCallback,
         r.clientId in env.clients && env.clients[r.clientId].isSmpp)
  }

  /** A forced delivery bumps the tenant counter when the client is charged on delivery. */
  predicate Bumps(r: Row, env: Env) {
    PlanFor(r, env).MarkDelivered? && IsDlrCharged(ClientMode(r, env)) && env.counterWorks
  }

  // ---- one sweep, row by row ----

  datatype Tally = Tally(table: seq<Row>, counter: int, pushes: seq<Push>, resolved: nat, skipped: nat)

  function SweepRow(t: Tally, r: Row, env: Env): Tally {
    var p := PlanFor(r, env);
    if p.Bypass? then t
    else if p.Leave? || !AnyHit(t.table, r.messageId) then t.(skipped := t.skipped + 1)
    else t.(table := GuardedUpdate(t.table, r.messageId, p),
            counter := if Bumps(r, env) then t.counter + 1 else t.counter,
            pushes := t.pushes + [PushFor(r, env)],
            resolved := t.resolved + 1)
  }

  function SweepRows(t: Tally, rows: seq<Row>, envs: seq<Env>): Tally
    requires |rows| == |envs|
    decreases |rows|
  {
    if rows == [] then t else SweepRows(SweepRow(t, rows[0], envs[0]), rows[1..], envs[1..])
  }

  class Tenant {
    var table: seq<Row>
    var smsCounter: int
    var pushes: seq<Push>

    constructor (table: seq<Row>, smsCounter: int)
      ensures this.table == table && this.smsCounter == smsCounter && pushes == []
    {
      this.table := table;
      this.smsCounter := smsCounter;
      pushes := [];
    }

    /** The guarded UPDATE statement; the answer is its row count being non-zero. */
    method Update(id: string, p: Plan) returns (changed: bool)
      requires Resolves(p)
      modifies this`table
      ensures changed <==> AnyHit(old(table), id)
      ensures table == if changed then GuardedUpdate(old(table), id, p) else old(table)
    {
      changed := false;
      var i := 0;
      ghost var before := table;
      while i < |table|
        invariant 0 <= i <= |table| == |before|
        invariant forall j :: 0 <= j < i ==>
                                table[j] == if Hits(before[j], id) then Marked(before[j], p) else before[j]
        invariant forall j :: i <= j < |table| ==> table[j] == before[j]
        invariant changed <==> exists j :: 0 <= j < i && Hits(before[j], id)
      {
        if Hits(table[i], id) {
          table := table[i := Marked(table[i], p)];
          changed := true;
        }
        i := i + 1;
      }
      assert table == if changed then GuardedUpdate(before, id, p) else before;
    }

    /**
     One sweep over the rows its SELECT returned, with what each row reads;
     `excluded` is the answer of the business-API COUNT query.
     */
    method SweepStaleDlrs(rows: seq<Row>, envs: seq<Env>, excluded: nat) returns (resolved: nat, skipped: nat)
      requires |rows| == |envs|
      modifies this
      ensures Tally(table, smsCounter, pushes, resolved, skipped)
              == SweepRows(Tally(old(table), old(smsCounter), old(pushes), 0, excluded), rows, envs)
    {
      resolved, skipped := 0, excluded;
      ghost var start := Tally(table, smsCounter, pushes, 0, excluded);
      for i := 0 to |rows|
        invariant SweepRows(Tally(table, smsCounter, pushes, resolved, skipped), rows[i..], envs[i..])
                  == SweepRows(start, rows, envs)
      {
        var r, env := rows[i], envs[i];
        assert rows[i..][1..] == rows[i + 1..] && envs[i..][1..] == envs[i + 1..];
        var p := PlanFor(r, env);
        if p.Bypass? {
          continue;
        }
        if p.Leave? {
          skipped := skipped + 1;
          continue;
        }
        var changed := Update(r.messageId, p);
        if !changed {
          skipped := skipped + 1;
          continue;
        }
        if Bumps(r, env) {
          smsCounter := smsCounter + 1;
        }
        pushes := pushes + [PushFor(r, env)];
        resolved := resolved + 1;
      }
    }
  }
}
