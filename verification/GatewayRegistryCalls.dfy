/** What single registry calls mean for a caller, and how they relate to each other. */
module GatewayRegistryCalls {
  import opened Wrappers
  import opened GatewayRegistry
  import opened GatewayRegistryRuns

  // ---- online means heard from ----

  predicate Hears(k: Key, e: Event) {
    (e.Register? && e.key == k) || (e.Touch? && e.key == k)
  }

  /** The time of the last registration or heartbeat of gateway k in this history. */
  function LastHeard(k: Key, events: seq<Event>): Option<int> {
    if events == [] then None
    else if Hears(k, events[|events| - 1]) then Some(events[|events| - 1].now)
    else LastHeard(k, events[..|events| - 1])
  }

  function LastSeen(s: Slot): Option<int> {
    if s.entry.Some? then Some(s.entry.value.lastSeen) else None
  }

  lemma LoopsKeepLastSeen(s: Slot, max: int, i: nat, now: int)
    requires s.entry.Some?
    ensures LastSeen(ClaimUpTo(s, max)) == LastSeen(s)
    ensures LastSeen(TrimAll(ExpireFrom(s, i, now))) == LastSeen(s)
  {
    ClaimsKeep(s, max);
    ExpiriesKeep(s, i, now);
    TrimsKeep(ExpireFrom(s, i, now));
  }

  lemma {:induction false} ClaimsKeep(s: Slot, max: int)
    requires s.entry.Some?
    ensures LastSeen(ClaimUpTo(s, max)) == LastSeen(s)
    decreases |s.entry.value.mtQueue|
  {
    if max > 0 && |s.entry.value.mtQueue| > 0 {
      ClaimsKeep(ClaimSlot(s), max - 1);
    }
  }

  lemma {:induction false} ExpiriesKeep(s: Slot, i: nat, now: int)
    requires s.entry.Some?
    ensures LastSeen(ExpireFrom(s, i, now)) == LastSeen(s)
    decreases |s.entry.value.inflight| - i
  {
    if i < |s.entry.value.inflight| {
      var item := s.entry.value.inflight[i];
      if IsStale(item, now) {
        ExpiriesKeep(RetrySlot(s, i, Expired(item)), i, now);
      } else {
        ExpiriesKeep(s, i + 1, now);
      }
    }
  }

  lemma {:induction false} TrimsKeep(s: Slot)
    requires s.entry.Some?
    ensures LastSeen(TrimAll(s)) == LastSeen(s)
    decreases |s.entry.value.mtQueue|
  {
    if |s.entry.value.mtQueue| > MAX_QUEUE {
      TrimsKeep(TrimSlot(s));
    }
  }

  lemma StepHeard(k: Key, s: Slot, e: Event)
    ensures var t := Step(k, s, e);
            t.entry.Some? ==> if Hears(k, e) then LastSeen(t) == Some(e.now) else LastSeen(t) == LastSeen(s)
  {
    hide ClaimUpTo, ExpireFrom, TrimAll, Put, RemoveAt, IndexOf;
    match e
    case Cleanup(now) => if s.entry.Some? { LoopsKeepLastSeen(s, 0, 0, now); }
    case Dequeue(_, max) => if s.entry.Some? { LoopsKeepLastSeen(s, max, 0, 0); }
    case _ =>
  }

  /** Over every run, a registered gateway was last seen at its last registration or heartbeat. */
  lemma {:induction false} SeenIsHeard(k: Key, events: seq<Event>)
    requires Run(k, events).entry.Some?
    ensures LastSeen(Run(k, events)) == LastHeard(k, events)
    decreases |events|
  {
    if events != [] {
      var before := events[..|events| - 1];
      StepHeard(k, Run(k, before), events[|events| - 1]);
      if Run(k, before).entry.Some? {
        SeenIsHeard(k, before);
      }
    }
  }

  /** A message is accepted only by a gateway heard from within the last OFFLINE_AFTER_MS. */
  lemma AcceptedOnlyWhenHeard(k: Key, events: seq<Event>, now: int)
    requires Accepts(Run(k, events).entry, now)
    ensures LastHeard(k, events).Some? && now - LastHeard(k, events).value < OFFLINE_AFTER_MS
  {
    SeenIsHeard(k, events);
  }

  // ---- reports ----

  lemma NotRemoved(f: seq<Item>, i: nat)
    requires i < |f| && ItemsDistinct(f)
    ensures forall j :: 0 <= j < |RemoveAt(f, i)| ==> RemoveAt(f, i)[j].messageId != f[i].messageId
  {
  }

  ghost predicate InFlight(s: Slot, id: string) {
    exists j :: 0 <= j < |Flight(s)| && Flight(s)[j].messageId == id
  }

  /** The message is next in the queue, with attempts left. */
  ghost predicate FrontIs(s: Slot, id: string) {
    Queue(s) != [] && Queue(s)[0].messageId == id && Queue(s)[0].attempts < MAX_ATTEMPTS
  }

  /** What an answer says about the message: before the report, s, and after it, t. */
  ghost predicate SaysOutcome(r: ReportResult, s: Slot, t: Slot, id: string, success: bool) {
    && (r == Unknown <==> !InFlight(s, id))
    && (r == Unknown ==> t == s)
    && (r == ReportOk <==> InFlight(s, id) && success)
    && (r != Unknown ==> !InFlight(t, id))
    && (r == ReportOk ==> t.ledger.done == s.ledger.done + [(id, Delivered)] && Queue(t) == Queue(s))
    && (r == ReportDropped ==> t.ledger.done == s.ledger.done + [(id, Dropped)] && Queue(t) == Queue(s))
    && (r == Requeued ==> t.ledger.done == s.ledger.done && FrontIs(t, id) && Queue(t)[1..] == Queue(s))
  }

  lemma SlotAnswers(s: Slot, id: string, success: bool, now: int)
    requires FlightDistinct(s)
    ensures SaysOutcome(ReportAnswer(s.entry, id, success), s, ReportSlot(s, id, success, now), id, success)
  {
    var i := IndexOf(Flight(s), id);
    if i < |Flight(s)| {
      hide IndexOf, Put;
      NotRemoved(Flight(s), i);
      var t := ReportSlot(s, id, success, now);
      assert Flight(t) == RemoveAt(Flight(s), i);
      assert InFlight(s, id);
    }
  }

  /** After every run, the answer of a report says what became of the message. */
  lemma AnswerSaysOutcome(k: Key, events: seq<Event>, id: string, success: bool, now: int)
    ensures var s := Run(k, events);
            SaysOutcome(ReportAnswer(s.entry, id, success), s, Step(k, s, Report(k, id, success, now)), id, success)
  {
    hide SaysOutcome, FlightDistinct, Run;
    RunFlightDistinct(k, events);
    SlotAnswers(Run(k, events), id, success, now);
  }

  lemma AppendedFound(f: seq<Item>, item: Item)
    requires forall j :: 0 <= j < |f| ==> f[j].messageId != item.messageId
    ensures IndexOf(f + [item], item.messageId) == |f| && RemoveAt(f + [item], |f|) == f
  {
    hide IndexOf;
    var g := f + [item];
    assert forall j :: 0 <= j < |f| ==> g[j] == f[j];
    assert g[|f|] == item;
  }

  /** A failed report undoes the claim: the message is at the front again, one attempt older. */
  lemma FailedReportUndoesClaim(s: Slot, now: int)
    requires s.entry.Some? && Queue(s) != [] && !InFlight(s, Queue(s)[0].messageId)
    requires Queue(s)[0].attempts + 1 < MAX_ATTEMPTS
    ensures var head := Queue(s)[0];
            var t := ReportSlot(ClaimSlot(s), head.messageId, false, now);
            && Queue(t) == [head.(attempts := head.attempts + 1, lastAttempt := Some(now))] + Queue(s)[1..]
            && Flight(t) == Flight(s) && t.ledger.done == s.ledger.done
  {
    var head, u := Queue(s)[0], ClaimSlot(s);
    assert forall j :: 0 <= j < |Flight(s)| ==> Flight(s)[j].messageId != head.messageId;
    PutNew(Flight(s), head);
    hide Put, IndexOf, RemoveAt;
    assert Flight(u) == Flight(s) + [head];
    AppendedFound(Flight(s), head);
  }
}
