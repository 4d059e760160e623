/** The exact limits of the registry: when the queue passes its cap, and how long a claim lasts. */
module GatewayRegistryLimits {
  import opened Wrappers
  import opened GatewayRegistry
  import opened GatewayRegistryRuns
  import opened GatewayRegistryCalls

  // ---- the queue cap ----

  lemma {:induction false} ClaimsShrink(s: Slot, max: int)
    requires s.entry.Some?
    ensures |Queue(ClaimUpTo(s, max))| <= |Queue(s)|
    decreases |s.entry.value.mtQueue|
  {
    if max > 0 && |s.entry.value.mtQueue| > 0 {
      ClaimsShrink(ClaimSlot(s), max - 1);
    }
  }

  /** One call takes a queue over its cap if and only if it reports a failure that is retried onto a full queue. */
  lemma QueueCapIff(k: Key, s: Slot, e: Event)
    requires |Queue(s)| <= MAX_QUEUE
    ensures |Queue(Step(k, s, e))| > MAX_QUEUE <==>
            && e.Report? && e.key == k && |Queue(s)| == MAX_QUEUE
            && ReportAnswer(s.entry, e.messageId, e.success) == Requeued
  {
    hide IndexOf, Put, RemoveAt, ClaimUpTo, CleanSlot;
    match e
    case Cleanup(now) => CleanupRestoresBounds(s, now);
    case Dequeue(_, max) => if s.entry.Some? { ClaimsShrink(s, max); }
    case _ =>
  }

  /** One acceptance after another. */
  function Enqueues(k: Key, ids: seq<string>, text: string, now: int): (r: seq<Event>)
    ensures |r| == |ids|
  {
    seq(|ids|, i requires 0 <= i < |ids| => Enqueue(k, ids[i], text, text, text, now))
  }

  /** Just registered, and holding these messages, none of them claimed. */
  ghost predicate Holding(s: Slot, ids: seq<string>, now: int) {
    && s.entry.Some? && s.entry.value.lastSeen == now && Flight(s) == []
    && |Queue(s)| == |ids|
    && forall i :: 0 <= i < |ids| ==> Queue(s)[i].messageId == ids[i] && Queue(s)[i].attempts == 0
  }

  lemma AcceptHolds(k: Key, s: Slot, ids: seq<string>, id: string, text: string, now: int)
    requires Holding(s, ids, now) && |ids| < MAX_QUEUE
    ensures Holding(Step(k, s, Enqueue(k, id, text, text, text, now)), ids + [id], now)
  {
  }

  lemma {:induction false} Filled(k: Key, device: Device, ids: seq<string>, text: string, now: int)
    requires |ids| <= MAX_QUEUE
    ensures Holding(Run(k, [Register(k, device, now)] + Enqueues(k, ids, text, now)), ids, now)
    decreases |ids|
  {
    var r := Register(k, device, now);
    if |ids| == 0 {
      assert [r] + Enqueues(k, ids, text, now) == [] + [r];
      RunOneMore(k, NEW_SLOT, [], r);
    } else {
      var front, id := ids[..|ids| - 1], ids[|ids| - 1];
      var e := Enqueue(k, id, text, text, text, now);
      var before := [r] + Enqueues(k, front, text, now);
      Filled(k, device, front, text, now);
      assert Enqueues(k, ids, text, now) == Enqueues(k, front, text, now) + [e];
      assert [r] + Enqueues(k, ids, text, now) == before + [e];
      assert front + [id] == ids;
      hide *;
      RunOneMore(k, NEW_SLOT, before, e);
      RunIsFrom(k, before);
      RunIsFrom(k, before + [e]);
      AcceptHolds(k, Run(k, before), front, id, text, now);
    }
  }

  lemma RunIsFrom(k: Key, events: seq<Event>)
    ensures Run(k, events) == RunFrom(k, NEW_SLOT, events)
  {
  }

  /** One message in flight, claimed once, and so many queued. */
  ghost predicate OneOut(s: Slot, id: string, queued: nat, now: int) {
    && s.entry.Some? && s.entry.value.lastSeen == now && |Queue(s)| == queued
    && |Flight(s)| == 1 && Flight(s)[0].messageId == id && Flight(s)[0].attempts == 0
  }

  lemma ClaimOneOut(k: Key, s: Slot, ids: seq<string>, now: int)
    requires Holding(s, ids, now) && |ids| > 0
    ensures OneOut(Step(k, s, Dequeue(k, 1)), ids[0], |ids| - 1, now)
  {
    assert ClaimUpTo(s, 1) == ClaimUpTo(ClaimSlot(s), 0) == ClaimSlot(s);
  }

  lemma AcceptOneMore(k: Key, s: Slot, id: string, queued: nat, e: Event)
    requires e.Enqueue? && e.key == k && OneOut(s, id, queued, e.now) && queued < MAX_QUEUE
    ensures OneOut(Step(k, s, e), id, queued + 1, e.now)
  {
  }

  lemma FailTheOne(k: Key, s: Slot, id: string, queued: nat, now: int)
    requires OneOut(s, id, queued, now)
    ensures |Queue(Step(k, s, Report(k, id, false, now)))| == queued + 1
  {
    assert IndexOf(Flight(s), id) == 0;
  }

  lemma FailedRetryOverfills(k: Key, s: Slot, ids: seq<string>, extra: string, text: string, now: int)
    requires Holding(s, ids, now) && |ids| == MAX_QUEUE
    ensures var t := Step(k, Step(k, s, Dequeue(k, 1)), Enqueue(k, extra, text, text, text, now));
            |Queue(Step(k, t, Report(k, ids[0], false, now)))| == MAX_QUEUE + 1
  {
    hide Step, OneOut, Holding, Queue;
    var e := Enqueue(k, extra, text, text, text, now);
    ClaimOneOut(k, s, ids, now);
    AcceptOneMore(k, Step(k, s, Dequeue(k, 1)), ids[0], MAX_QUEUE - 1, e);
    FailTheOne(k, Step(k, Step(k, s, Dequeue(k, 1)), e), ids[0], MAX_QUEUE, now);
  }

  /**
   A run that overfills the queue, for any messages: register, MAX_QUEUE
   acceptances, one claimed, one more accepted, the claimed one failed.
   */
  lemma OverfilledRun(k: Key, device: Device, ids: seq<string>, extra: string, text: string, now: int)
    requires |ids| == MAX_QUEUE
    ensures var fill := [Register(k, device, now)] + Enqueues(k, ids, text, now);
            var a, b, c := Dequeue(k, 1), Enqueue(k, extra, text, text, text, now), Report(k, ids[0], false, now);
            |Queue(Run(k, fill + [a] + [b] + [c]))| == MAX_QUEUE + 1
  {
    var fill := [Register(k, device, now)] + Enqueues(k, ids, text, now);
    var a, b, c := Dequeue(k, 1), Enqueue(k, extra, text, text, text, now), Report(k, ids[0], false, now);
    Filled(k, device, ids, text, now);
    FailedRetryOverfills(k, Run(k, fill), ids, extra, text, now);
    hide *;
    RunIsFrom(k, fill);
    RunIsFrom(k, fill + [a] + [b] + [c]);
    RunOneMore(k, NEW_SLOT, fill, a);
    RunOneMore(k, NEW_SLOT, fill + [a], b);
    RunOneMore(k, NEW_SLOT, fill + [a] + [b], c);
  }

  // ---- the life of a claim ----

  /** The items that are not overdue, in order. */
  function Live(f: seq<Item>, now: int): seq<Item> {
    if f == [] then [] else (if IsStale(f[0], now) then [] else [f[0]]) + Live(f[1..], now)
  }

  lemma {:induction false} LiveMembers(f: seq<Item>, now: int, item: Item)
    ensures item in Live(f, now) <==> item in f && !IsStale(item, now)
  {
    if |f| > 0 {
      LiveMembers(f[1..], now, item);
      assert f == [f[0]] + f[1..];
    }
  }

  lemma LiveStep(f: seq<Item>, i: nat, now: int)
    requires i < |f|
    ensures f[..i] + Live(f[i..], now) ==
            if IsStale(f[i], now) then RemoveAt(f, i)[..i] + Live(RemoveAt(f, i)[i..], now)
            else f[..i + 1] + Live(f[i + 1..], now)
  {
    hide IsStale;
    assert f[i..][1..] == f[i + 1..];
    assert RemoveAt(f, i)[..i] == f[..i] && RemoveAt(f, i)[i..] == f[i + 1..];
    assert f[..i + 1] == f[..i] + [f[i]];
  }

  lemma {:induction false} ExpireLeavesLive(s: Slot, i: nat, now: int)
    requires s.entry.Some? && i <= |Flight(s)|
    ensures Flight(ExpireFrom(s, i, now)) == Flight(s)[..i] + Live(Flight(s)[i..], now)
    decreases |Flight(s)| - i
  {
    var f := Flight(s);
    if i < |f| {
      hide Live, IsStale, RemoveAt;
      LiveStep(f, i, now);
      if IsStale(f[i], now) {
        RemovedOne(f, i);
        ExpireLeavesLive(RetrySlot(s, i, Expired(f[i])), i, now);
      } else {
        ExpireLeavesLive(s, i + 1, now);
      }
    } else {
      assert f[..i] + Live(f[i..], now) == f;
    }
  }

  lemma RemovedOne(f: seq<Item>, i: nat)
    requires i < |f|
    ensures |RemoveAt(f, i)| == |f| - 1
  {
  }

  /** Maintenance of a fresh gateway leaves exactly the messages in flight that are not overdue, in order. */
  lemma CleanupLeavesLive(s: Slot, now: int)
    requires s.entry.Some? && IsFresh(s.entry.value, now)
    ensures Flight(CleanSlot(s, now)) == Live(Flight(s), now)
  {
    ExpireLeavesLive(s, 0, now);
    TrimAllKeepsNewest(ExpireFrom(s, 0, now));
    assert Flight(s)[..0] + Live(Flight(s)[0..], now) == Live(Flight(s), now);
  }

  lemma ClaimedInFlight(f: seq<Item>, item: Item)
    requires ItemsDistinct(f)
    ensures item in Put(f, item) && ItemsDistinct(Put(f, item))
    ensures forall x :: x in Put(f, item) && x.messageId == item.messageId ==> x == item
  {
    hide IndexOf;
    PutKeepsDistinct(f, item);
    var i := IndexOf(f, item.messageId);
    assert Put(f, item)[i] == item;
  }

  /**
   After any run, the maintenance that follows a claim leaves the message in flight if
   and only if its last failed report, or else its acceptance, is at most
   INFLIGHT_TTL_MS ago. The time of the claim plays no part.
   */
  lemma ClaimSurvivesIff(k: Key, events: seq<Event>, now: int)
    requires var s := Run(k, events); s.entry.Some? && Queue(s) != [] && IsFresh(s.entry.value, now)
    ensures var s := Run(k, events);
            InFlight(CleanSlot(ClaimSlot(s), now), Queue(s)[0].messageId)
            <==> now - LastActivity(Queue(s)[0]) <= INFLIGHT_TTL_MS
  {
    hide Run, CleanSlot, Live, LastActivity;
    var s, head := Run(k, events), Queue(Run(k, events))[0];
    RunFlightDistinct(k, events);
    ClaimedInFlight(Flight(s), head);
    hide Put;
    var t := ClaimSlot(s);
    CleanupLeavesLive(t, now);
    LiveMembers(Flight(t), now, head);
    if InFlight(CleanSlot(t, now), head.messageId) {
      var j :| 0 <= j < |Flight(CleanSlot(t, now))| && Flight(CleanSlot(t, now))[j].messageId == head.messageId;
      LiveMembers(Flight(t), now, Flight(CleanSlot(t, now))[j]);
    }
  }
}
