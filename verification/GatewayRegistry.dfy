/**
 The REST gateway registry: per-supplier entries with a mobile-terminated queue
 and an insertion-ordered in-flight map.

 `Entry` functions say what one call does to one gateway. `Slot` adds a ledger
 (acceptances, claims, final outcomes, work done) so that whole runs can be
 talked about, and `Run` folds a history of calls for one gateway. The class
 `Registry` is the imperative code; its `Valid()` ties every entry to `Run`.
 */
module GatewayRegistry {
  import opened Wrappers

  const OFFLINE_AFTER_MS := 90_000
  const INFLIGHT_TTL_MS := 120_000
  const MAX_QUEUE := 5000
  const MAX_ATTEMPTS := 6

  datatype Key = Key(tenantId: int, supplierId: int)

  datatype Item = Item(messageId: string, source: string, destination: string, content: string,
                       queuedAt: int, attempts: nat, lastAttempt: Option<int>)

  datatype Device = Device(schemaName: string, username: string,
                           deviceInfo: Option<string>, serverIp: Option<string>)

  /** `inflight` lists the entries of the in-flight map in insertion order. */
  datatype Entry = Entry(device: Device, lastSeen: int, registeredAt: int,
                         mtQueue: seq<Item>, inflight: seq<Item>)

  datatype ReportResult = ReportOk | Requeued | ReportDropped | Unknown

  predicate IsFresh(e: Entry, now: int) {
    now - e.lastSeen < OFFLINE_AFTER_MS
  }

  function Ids(s: seq<Item>): (r: seq<string>)
    ensures |r| == |s|
    ensures forall i :: 0 <= i < |s| ==> r[i] == s[i].messageId
  {
    seq(|s|, i requires 0 <= i < |s| => s[i].messageId)
  }

  /** Position of the item with this id, or |fl| when there is none. */
  function IndexOf(fl: seq<Item>, id: string): (i: nat)
    ensures i <= |fl|
    ensures i < |fl| ==> fl[i].messageId == id
    ensures forall j :: 0 <= j < i ==> fl[j].messageId != id
  {
    if fl == [] || fl[0].messageId == id then 0 else 1 + IndexOf(fl[1..], id)
  }

  /** Map.set: replaces the value in place, or appends a new key. */
  function Put(fl: seq<Item>, item: Item): seq<Item> {
    var i := IndexOf(fl, item.messageId);
    if i < |fl| then fl[i := item] else fl + [item]
  }

  function RemoveAt(fl: seq<Item>, i: nat): seq<Item>
    requires i < |fl|
  {
    fl[..i] + fl[i + 1..]
  }

  /** `lastAttempt || queuedAt`: an absent or zero lastAttempt falls back to queuedAt. */
  function LastActivity(item: Item): int {
    if item.lastAttempt.Some? && item.lastAttempt.value != 0 then item.lastAttempt.value else item.queuedAt
  }

  predicate IsStale(item: Item, now: int) {
    now - LastActivity(item) > INFLIGHT_TTL_MS
  }

  // ---- what one atomic step does to one entry ----

  function Opened(existing: Option<Entry>, device: Device, now: int): Entry {
    if existing.Some? then Entry(device, now, now, existing.value.mtQueue, existing.value.inflight)
    else Entry(device, now, now, [], [])
  }

  predicate Accepts(e: Option<Entry>, now: int) {
    e.Some? && IsFresh(e.value, now) && |e.value.mtQueue| < MAX_QUEUE
  }

  function ClaimOne(e: Entry): Entry
    requires e.mtQueue != []
  {
    e.(mtQueue := e.mtQueue[1..], inflight := Put(e.inflight, e.mtQueue[0]))
  }

  function Complete(e: Entry, i: nat): Entry
    requires i < |e.inflight|
  {
    e.(inflight := RemoveAt(e.inflight, i))
  }

  /** The failed item, one attempt older: back to the front of the queue, or gone. */
  function Retry(e: Entry, i: nat, failed: Item): Entry
    requires i < |e.inflight|
  {
    var rest := RemoveAt(e.inflight, i);
    if failed.attempts >= MAX_ATTEMPTS then e.(inflight := rest)
    else e.(inflight := rest, mtQueue := [failed] + e.mtQueue)
  }

  function Reported(item: Item, now: int): Item {
    item.(attempts := item.attempts + 1, lastAttempt := Some(now))
  }

  function Expired(item: Item): Item {
    item.(attempts := item.attempts + 1)
  }

  // ---- one gateway with its ledger ----

  datatype Outcome = Delivered | Dropped | Trimmed | Discarded

  /**
   accepted: ids accepted for this gateway, ever, in order; `base` of them
   predate the present registration. firstClaims: ids handed out for the first
   time in the present registration. claims: every hand-out, ever.
   done: final outcomes. work: claims + known reports + time-outs.
   */
  datatype Ledger = Ledger(accepted: seq<string>, base: nat, firstClaims: seq<string>,
                           claims: seq<string>, done: seq<(string, Outcome)>, work: nat)

  datatype Slot = Slot(entry: Option<Entry>, ledger: Ledger)

  const NEW_SLOT := Slot(None, Ledger([], 0, [], [], [], 0))

  datatype Event =
    | Register(key: Key, device: Device, now: int)
    | Touch(key: Key, now: int)
    | Unregister(key: Key)
    | Enqueue(key: Key, messageId: string, source: string, destination: string, content: string, now: int)
    | Dequeue(key: Key, max: int)
    | Report(key: Key, messageId: string, success: bool, now: int)
    | Cleanup(now: int)

  function OpenSlot(s: Slot, device: Device, now: int): Slot {
    s.(entry := Some(Opened(s.entry, device, now)),
       ledger := if s.entry.Some? then s.ledger
                 else s.ledger.(base := |s.ledger.accepted|, firstClaims := []))
  }

  function AcceptSlot(s: Slot, item: Item): Slot
    requires s.entry.Some?
  {
    var e := s.entry.value;
    s.(entry := Some(e.(mtQueue := e.mtQueue + [item])),
       ledger := s.ledger.(accepted := s.ledger.accepted + [item.messageId]))
  }

  function Outcomes(ids: seq<string>, o: Outcome): (r: seq<(string, Outcome)>)
    ensures |r| == |ids|
    ensures forall i :: 0 <= i < |ids| ==> r[i] == (ids[i], o)
  {
    seq(|ids|, i requires 0 <= i < |ids| => (ids[i], o))
  }

  function CloseSlot(s: Slot): Slot {
    if s.entry.None? then s
    else s.(entry := None,
            ledger := s.ledger.(done := s.ledger.done
                      + Outcomes(Ids(s.entry.value.mtQueue), Discarded)
                      + Outcomes(Ids(s.entry.value.inflight), Discarded)))
  }

  function ClaimSlot(s: Slot): Slot
    requires s.entry.Some? && s.entry.value.mtQueue != []
  {
    var head := s.entry.value.mtQueue[0];
    s.(entry := Some(ClaimOne(s.entry.value)),
       ledger := s.ledger.(claims := s.ledger.claims + [head.messageId],
                           firstClaims := if head.attempts == 0 then s.ledger.firstClaims + [head.messageId]
                                          else s.ledger.firstClaims,
                           work := s.ledger.work + 1))
  }

  function CompleteSlot(s: Slot, i: nat): Slot
    requires s.entry.Some? && i < |s.entry.value.inflight|
  {
    s.(entry := Some(Complete(s.entry.value, i)),
       ledger := s.ledger.(done := s.ledger.done + [(s.entry.value.inflight[i].messageId, Delivered)],
                           work := s.ledger.work + 1))
  }

  /** `failed` is in-flight item i with its attempt counted. */
  function RetrySlot(s: Slot, i: nat, failed: Item): Slot
    requires s.entry.Some? && i < |s.entry.value.inflight|
  {
    s.(entry := Some(Retry(s.entry.value, i, failed)),
       ledger := s.ledger.(done := if failed.attempts >= MAX_ATTEMPTS
                                   then s.ledger.done + [(failed.messageId, Dropped)] else s.ledger.done,
                           work := s.ledger.work + 1))
  }

  function TrimSlot(s: Slot): Slot
    requires s.entry.Some? && s.entry.value.mtQueue != []
  {
    var e := s.entry.value;
    s.(entry := Some(e.(mtQueue := e.mtQueue[1..])),
       ledger := s.ledger.(done := s.ledger.done + [(e.mtQueue[0].messageId, Trimmed)]))
  }

  // ---- the loops, as recursions over slots ----

  function ClaimUpTo(s: Slot, max: int): Slot
    requires s.entry.Some?
    decreases |s.entry.value.mtQueue|
  {
    if max <= 0 || s.entry.value.mtQueue == [] then s else ClaimUpTo(ClaimSlot(s), max - 1)
  }

  function ExpireFrom(s: Slot, i: nat, now: int): (r: Slot)
    requires s.entry.Some?
    ensures r.entry.Some?
    decreases |s.entry.value.inflight| - i
  {
    if i >= |s.entry.value.inflight| then s
    else
      var item := s.entry.value.inflight[i];
      if IsStale(item, now) then ExpireFrom(RetrySlot(s, i, Expired(item)), i, now)
      else ExpireFrom(s, i + 1, now)
  }

  function TrimAll(s: Slot): Slot
    requires s.entry.Some?
    decreases |s.entry.value.mtQueue|
  {
    if |s.entry.value.mtQueue| <= MAX_QUEUE then s else TrimAll(TrimSlot(s))
  }

  function CleanSlot(s: Slot, now: int): Slot {
    if s.entry.None? then s
    else if !IsFresh(s.entry.value, now) then CloseSlot(s)
    else TrimAll(ExpireFrom(s, 0, now))
  }

  function ReportSlot(s: Slot, id: string, success: bool, now: int): Slot {
    if s.entry.None? then s
    else
      var i := IndexOf(s.entry.value.inflight, id);
      if i == |s.entry.value.inflight| then s
      else if success then CompleteSlot(s, i)
      else RetrySlot(s, i, Reported(s.entry.value.inflight[i], now))
  }

  function ReportAnswer(e: Option<Entry>, id: string, success: bool): ReportResult {
    if e.None? then Unknown
    else
      var i := IndexOf(e.value.inflight, id);
      if i == |e.value.inflight| then Unknown
      else if success then ReportOk
      else if e.value.inflight[i].attempts + 1 >= MAX_ATTEMPTS then ReportDropped
      else Requeued
  }

  /** What one call does to the gateway under key k: nothing, unless it is addressed to k or is a cleanup. */
  function Step(k: Key, s: Slot, ev: Event): Slot {
    match ev
    case Cleanup(now) => CleanSlot(s, now)
    case Register(key, device, now) => if key == k then OpenSlot(s, device, now) else s
    case Touch(key, now) =>
      if key == k && s.entry.Some? then s.(entry := Some(s.entry.value.(lastSeen := now))) else s
    case Unregister(key) => if key == k then CloseSlot(s) else s
    case Enqueue(key, id, src, dst, content, now) =>
      if key == k && Accepts(s.entry, now) then AcceptSlot(s, Item(id, src, dst, content, now, 0, None)) else s
    case Dequeue(key, max) => if key == k && s.entry.Some? then ClaimUpTo(s, max) else s
    case Report(key, id, success, now) => if key == k then ReportSlot(s, id, success, now) else s
  }

  function RunFrom(k: Key, s: Slot, events: seq<Event>): Slot {
    if events == [] then s
    else Step(k, RunFrom(k, s, events[..|events| - 1]), events[|events| - 1])
  }

  function Run(k: Key, events: seq<Event>): Slot {
    RunFrom(k, NEW_SLOT, events)
  }

  function Lookup(m: map<Key, Entry>, k: Key): Option<Entry> {
    if k in m then Some(m[k]) else None
  }

  // ---- the registry itself ----

  class Registry {
    var entries: map<Key, Entry>
    ghost var history: seq<Event>

    ghost predicate Valid()
      reads this
    {
      forall k: Key :: Lookup(entries, k) == Run(k, history).entry
    }

    constructor ()
      ensures Valid() && history == []
    {
      entries := map[];
      history := [];
    }

    method Record(ghost ev: Event)
      requires forall k: Key :: Lookup(entries, k) == Step(k, Run(k, history), ev).entry
      modifies this`history
      ensures history == old(history) + [ev] && Valid()
    {
      assert (history + [ev])[..|history|] == history;
      history := history + [ev];
    }

    method RegisterGateway(key: Key, device: Device, now: int) returns (e: Entry)
      requires Valid()
      modifies this
      ensures Valid() && history == old(history) + [Register(key, device, now)]
      ensures Lookup(entries, key) == Some(e)
    {
      e := Opened(Lookup(entries, key), device, now);
      entries := entries[key := e];
      Record(Register(key, device, now));
    }

    method TouchGateway(key: Key, now: int) returns (known: bool)
      requires Valid()
      modifies this
      ensures Valid() && history == old(history) + [Touch(key, now)]
      ensures known <==> key in old(entries)
    {
      known := key in entries;
      if known {
        entries := entries[key := entries[key].(lastSeen := now)];
      }
      Record(Touch(key, now));
    }

    method UnregisterGateway(key: Key)
      requires Valid()
      modifies this
      ensures Valid() && history == old(history) + [Unregister(key)]
      ensures key !in entries
    {
      entries := entries - {key};
      Record(Unregister(key));
    }

    method EnqueueMt(key: Key, id: string, src: string, dst: string, content: string, now: int) returns (ok: bool)
      requires Valid()
      modifies this
      ensures Valid() && history == old(history) + [Enqueue(key, id, src, dst, content, now)]
      ensures ok <==> Accepts(Lookup(old(entries), key), now)
    {
      ok := key in entries && IsFresh(entries[key], now) && |entries[key].mtQueue| < MAX_QUEUE;
      if ok {
        var e := entries[key];
        entries := entries[key := e.(mtQueue := e.mtQueue + [Item(id, src, dst, content, now, 0, None)])];
      }
      Record(Enqueue(key, id, src, dst, content, now));
    }

    /** The loop of one dequeue call: shift from the queue into the in-flight map. */
    static method ClaimLoop(entry: Entry, max: int, ghost s0: Slot) returns (e: Entry, items: seq<Item>)
      requires s0.entry == Some(entry)
      ensures ClaimUpTo(s0, max).entry == Some(e)
      ensures items == entry.mtQueue[..if max <= 0 then 0 else Min(max, |entry.mtQueue|)]
    {
      hide Put;
      e, items := entry, [];
      ghost var s := s0;
      ghost var q := entry.mtQueue;
      while |items| < max && |e.mtQueue| > 0
        invariant s.entry == Some(e)
        invariant ClaimUpTo(s, max - |items|) == ClaimUpTo(s0, max)
        invariant |items| <= |q| && items == q[..|items|] && e.mtQueue == q[|items|..]
        invariant max >= 0 ==> |items| <= max
        invariant max < 0 ==> items == []
        decreases |e.mtQueue|
      {
        items := items + [e.mtQueue[0]];
        s := ClaimSlot(s);
        e := ClaimOne(e);
      }
    }

    method DequeueMt(key: Key, max: int) returns (items: seq<Item>)
      requires Valid()
      modifies this
      ensures Valid() && history == old(history) + [Dequeue(key, max)]
      ensures key !in old(entries) ==> items == []
      ensures key in old(entries) ==>
                var q := old(entries)[key].mtQueue;
                items == q[..if max <= 0 then 0 else Min(max, |q|)]
    {
      items := [];
      if key in entries {
        assert Lookup(entries, key) == Run(key, history).entry;
        var e;
        e, items := ClaimLoop(entries[key], max, Run(key, history));
        entries := entries[key := e];
      }
      Record(Dequeue(key, max));
    }

    method ReportMtResult(key: Key, id: string, success: bool, now: int) returns (r: ReportResult)
      requires Valid()
      modifies this
      ensures Valid() && history == old(history) + [Report(key, id, success, now)]
      ensures r == ReportAnswer(Lookup(old(entries), key), id, success)
    {
      r := Unknown;
      if key in entries {
        var e := entries[key];
        var i := IndexOf(e.inflight, id);
        if i < |e.inflight| {
          var item := e.inflight[i];
          e := e.(inflight := RemoveAt(e.inflight, i));
          if success {
            r := ReportOk;
          } else {
            item := item.(attempts := item.attempts + 1, lastAttempt := Some(now));
            if item.attempts >= MAX_ATTEMPTS {
              r := ReportDropped;
            } else {
              e := e.(mtQueue := [item] + e.mtQueue);
              r := Requeued;
            }
          }
          entries := entries[key := e];
        }
      }
      Record(Report(key, id, success, now));
    }

    /** The two inner loops of the periodic maintenance, for one fresh entry. */
    static method CleanEntry(entry: Entry, now: int, ghost s0: Slot) returns (e: Entry)
      requires s0.entry == Some(entry) && IsFresh(entry, now)
      ensures CleanSlot(s0, now).entry == Some(e)
    {
      e := entry;
      ghost var s := s0;
      var i := 0;
      while i < |e.inflight|
        invariant s.entry == Some(e) && i <= |e.inflight|
        invariant ExpireFrom(s, i, now) == ExpireFrom(s0, 0, now)
        decreases |e.inflight| - i
      {
        var item := e.inflight[i];
        if IsStale(item, now) {
          s := RetrySlot(s, i, Expired(item));
          e := e.(inflight := RemoveAt(e.inflight, i));
          item := item.(attempts := item.attempts + 1);
          if item.attempts < MAX_ATTEMPTS {
            e := e.(mtQueue := [item] + e.mtQueue);
          }
        } else {
          i := i + 1;
        }
      }
      while |e.mtQueue| > MAX_QUEUE
        invariant s.entry == Some(e)
        invariant TrimAll(s) == CleanSlot(s0, now)
        decreases |e.mtQueue|
      {
        s := TrimSlot(s);
        e := e.(mtQueue := e.mtQueue[1..]);
      }
    }

    method CleanupAll(now: int)
      requires Valid()
      modifies this
      ensures Valid() && history == old(history) + [Cleanup(now)]
    {
      var todo := entries.Keys;
      while todo != {}
        invariant history == old(history)
        invariant todo <= entries.Keys
        invariant forall k: Key :: Lookup(entries, k) ==
                                   if k in todo then Run(k, history).entry
                                   else CleanSlot(Run(k, history), now).entry
        decreases |todo|
      {
        var k :| k in todo;
        assert Lookup(entries, k) == Run(k, history).entry;
        if !IsFresh(entries[k], now) {
          entries := entries - {k};
        } else {
          var e := CleanEntry(entries[k], now, Run(k, history));
          entries := entries[k := e];
        }
        todo := todo - {k};
      }
      Record(Cleanup(now));
    }
  }
}
