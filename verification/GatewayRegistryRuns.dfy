/**
 What holds of one gateway over every run of registry calls: conservation of
 messages, the shape of the queue, the number of hand-outs, and a drain measure.
 */
module GatewayRegistryRuns {
  import opened Wrappers
  import opened Sequences
  import opened GatewayRegistry

  function Queue(s: Slot): seq<Item> {
    if s.entry.Some? then s.entry.value.mtQueue else []
  }

  function Flight(s: Slot): seq<Item> {
    if s.entry.Some? then s.entry.value.inflight else []
  }

  function DoneIds(done: seq<(string, Outcome)>): (r: seq<string>)
    ensures |r| == |done|
    ensures forall i :: 0 <= i < |done| ==> r[i] == done[i].0
  {
    seq(|done|, i requires 0 <= i < |done| => done[i].0)
  }

  /** Every place a message can be: queued, in flight, or finished. */
  function Places(s: Slot): seq<string> {
    Ids(Queue(s)) + Ids(Flight(s)) + DoneIds(s.ledger.done)
  }

  /** How often a message was handed out. */
  function HandedOut(claims: seq<string>, id: string): nat {
    multiset(claims)[id]
  }

  /** Each accepted message is in exactly one place, exactly once. */
  ghost predicate Conserved(s: Slot) {
    multiset(Places(s)) == multiset(s.ledger.accepted)
  }

  /** Number of messages accepted in this registration and not yet handed out. */
  function Unclaimed(l: Ledger): int {
    |l.accepted| - l.base - |l.firstClaims|
  }

  /** Retried messages first, then the never-claimed ones in acceptance order. */
  ghost predicate Shaped(l: Ledger, q: seq<Item>) {
    var n := Unclaimed(l);
    && 0 <= n <= |q| && n <= MAX_QUEUE
    && l.base <= |l.accepted|
    && l.firstClaims == l.accepted[l.base..|l.accepted| - n]
    && (forall j :: 0 <= j < |q| - n ==> q[j].attempts > 0)
    && (forall j :: |q| - n <= j < |q| ==>
          q[j].attempts == 0 && q[j].messageId == l.accepted[|l.accepted| - |q| + j])
  }

  ghost predicate OutcomeFits(d: (string, Outcome), claims: seq<string>) {
    var n := HandedOut(claims, d.0);
    match d.1
    case Delivered => 1 <= n <= MAX_ATTEMPTS
    case Dropped => n == MAX_ATTEMPTS
    case Trimmed => 1 <= n < MAX_ATTEMPTS
    case Discarded => n <= MAX_ATTEMPTS
  }

  ghost predicate OutcomesFit(done: seq<(string, Outcome)>, claims: seq<string>) {
    forall i :: 0 <= i < |done| ==> OutcomeFits(done[i], claims)
  }

  /** Every listed message was handed out attempts + extra times. */
  ghost predicate HandedAll(items: seq<Item>, claims: seq<string>, extra: nat) {
    forall i :: 0 <= i < |items| ==> HandedOut(claims, items[i].messageId) == items[i].attempts + extra
  }

  ghost predicate Bounded(items: seq<Item>) {
    forall i :: 0 <= i < |items| ==> items[i].attempts < MAX_ATTEMPTS
  }

  /** Hand-outs of a message: its attempts, plus one while it is in flight. */
  ghost predicate Counted(s: Slot) {
    && HandedAll(Queue(s), s.ledger.claims, 0)
    && HandedAll(Flight(s), s.ledger.claims, 1)
    && OutcomesFit(s.ledger.done, s.ledger.claims)
    && (forall id :: id in s.ledger.claims ==> id in s.ledger.accepted)
  }

  ghost predicate AttemptsBounded(s: Slot) {
    Bounded(Queue(s)) && Bounded(Flight(s))
  }

  lemma DistinctPlaces(s: Slot)
    requires Distinct(s.ledger.accepted) && Conserved(s)
    ensures Distinct(Places(s))
  {
    hide Places;
    DistinctCounts(s.ledger.accepted);
    assert CountsAtMostOne(Places(s)) by {
      forall x ensures multiset(Places(s))[x] <= 1 {
        assert multiset(s.ledger.accepted)[x] <= 1;
      }
    }
    CountsDistinct(Places(s));
  }

  lemma DistinctParts(a: seq<string>, b: seq<string>, c: seq<string>)
    requires Distinct(a + b + c)
    ensures Distinct(a)
    ensures forall i, j :: 0 <= i < |a| && 0 <= j < |b| ==> a[i] != b[j]
    ensures forall i, j :: 0 <= i < |a| && 0 <= j < |c| ==> a[i] != c[j]
  {
    var p := a + b + c;
    assert forall i :: 0 <= i < |a| ==> p[i] == a[i];
    forall i, j | 0 <= i < |a| && 0 <= j < |b| ensures a[i] != b[j] { assert p[|a| + j] == b[j]; }
    forall i, j | 0 <= i < |a| && 0 <= j < |c| ensures a[i] != c[j] { assert p[|a| + |b| + j] == c[j]; }
  }

  lemma PlacesDistinct(s: Slot)
    requires Distinct(s.ledger.accepted) && Conserved(s)
    ensures Distinct(Places(s))
    ensures forall i, j :: 0 <= i < j < |Queue(s)| ==> Queue(s)[i].messageId != Queue(s)[j].messageId
    ensures forall i, j :: 0 <= i < |Queue(s)| && 0 <= j < |Flight(s)| ==>
                             Queue(s)[i].messageId != Flight(s)[j].messageId
    ensures forall i, j :: 0 <= i < |Queue(s)| && 0 <= j < |s.ledger.done| ==>
                             Queue(s)[i].messageId != s.ledger.done[j].0
  {
    hide Queue, Flight;
    DistinctPlaces(s);
    var q, f, d := Ids(Queue(s)), Ids(Flight(s)), DoneIds(s.ledger.done);
    DistinctParts(q, f, d);
    assert forall i :: 0 <= i < |q| ==> q[i] == Queue(s)[i].messageId;
    assert forall i :: 0 <= i < |f| ==> f[i] == Flight(s)[i].messageId;
    assert forall i :: 0 <= i < |d| ==> d[i] == s.ledger.done[i].0;
  }

  lemma PlacesCounts(s: Slot)
    ensures multiset(Places(s)) ==
            multiset(Ids(Queue(s))) + multiset(Ids(Flight(s))) + multiset(DoneIds(s.ledger.done))
  {
  }

  // ---- sequence facts used by the steps ----

  lemma PutNew(fl: seq<Item>, item: Item)
    requires forall j :: 0 <= j < |fl| ==> fl[j].messageId != item.messageId
    ensures Put(fl, item) == fl + [item]
  {
  }

  lemma IdsPop(q: seq<Item>)
    requires q != []
    ensures multiset(Ids(q)) == multiset{q[0].messageId} + multiset(Ids(q[1..]))
  {
    assert Ids(q) == [q[0].messageId] + Ids(q[1..]);
  }

  lemma IdsPush(q: seq<Item>, item: Item)
    ensures multiset(Ids([item] + q)) == multiset{item.messageId} + multiset(Ids(q))
    ensures multiset(Ids(q + [item])) == multiset(Ids(q)) + multiset{item.messageId}
  {
    assert Ids([item] + q) == [item.messageId] + Ids(q);
    assert Ids(q + [item]) == Ids(q) + [item.messageId];
  }

  lemma IdsRemove(f: seq<Item>, i: nat)
    requires i < |f|
    ensures multiset(Ids(f)) == multiset(Ids(RemoveAt(f, i))) + multiset{f[i].messageId}
  {
    SplitAt(Ids(f), i);
    assert Ids(RemoveAt(f, i)) == Ids(f)[..i] + Ids(f)[i + 1..];
  }

  lemma DonePush(done: seq<(string, Outcome)>, id: string, o: Outcome)
    ensures multiset(DoneIds(done + [(id, o)])) == multiset(DoneIds(done)) + multiset{id}
  {
    assert DoneIds(done + [(id, o)]) == DoneIds(done) + [id];
  }

  lemma RemoveKeepsItems(f: seq<Item>, i: nat, claims: seq<string>)
    requires i < |f| && Bounded(f) && HandedAll(f, claims, 1)
    ensures Bounded(RemoveAt(f, i)) && HandedAll(RemoveAt(f, i), claims, 1)
  {
    assert forall j :: 0 <= j < |f| - 1 ==> RemoveAt(f, i)[j] == f[if j < i then j else j + 1];
  }

  lemma OtherHandOuts(claims: seq<string>, id: string)
    ensures HandedOut(claims + [id], id) == HandedOut(claims, id) + 1
    ensures forall x :: x != id ==> HandedOut(claims + [id], x) == HandedOut(claims, x)
  {
  }

  // ---- atomic steps, and properties closed under them ----

  /** Every registry call is a sequence of these on each gateway. */
  datatype Atom =
    | Open(device: Device, now: int)
    | Seen(now: int)
    | Close
    | Accept(item: Item)
    | Claim
    | Finish(i: nat)
    | Fail(i: nat, failed: Item)
    | Trim

  predicate CanDo(s: Slot, a: Atom) {
    match a
    case Open(_, _) => true
    case Close => true
    case Seen(_) => s.entry.Some?
    case Accept(item) => s.entry.Some? && |s.entry.value.mtQueue| < MAX_QUEUE && item.attempts == 0
    case Claim => s.entry.Some? && s.entry.value.mtQueue != []
    case Finish(i) => s.entry.Some? && i < |s.entry.value.inflight|
    case Fail(i, failed) =>
      && s.entry.Some? && i < |s.entry.value.inflight|
      && failed.messageId == s.entry.value.inflight[i].messageId
      && failed.attempts == s.entry.value.inflight[i].attempts + 1
    case Trim => s.entry.Some? && |s.entry.value.mtQueue| > MAX_QUEUE
  }

  function Do(s: Slot, a: Atom): Slot
    requires CanDo(s, a)
  {
    match a
    case Open(device, now) => OpenSlot(s, device, now)
    case Close => CloseSlot(s)
    case Seen(now) => s.(entry := Some(s.entry.value.(lastSeen := now)))
    case Accept(item) => AcceptSlot(s, item)
    case Claim => ClaimSlot(s)
    case Finish(i) => CompleteSlot(s, i)
    case Fail(i, failed) => RetrySlot(s, i, failed)
    case Trim => TrimSlot(s)
  }

  /** P survives every atomic step (acceptances only when `grow`). */
  ghost predicate Closed(P: Slot -> bool, grow: bool) {
    forall s, a :: P(s) && CanDo(s, a) && (grow || !a.Accept?) ==> P(Do(s, a))
  }

  lemma {:induction false} ClaimUpToReaches(P: Slot -> bool, s: Slot, max: int)
    requires Closed(P, false) && P(s) && s.entry.Some?
    ensures P(ClaimUpTo(s, max))
    decreases |s.entry.value.mtQueue|
  {
    if max > 0 && s.entry.value.mtQueue != [] {
      assert P(Do(s, Claim));
      ClaimUpToReaches(P, ClaimSlot(s), max - 1);
    }
  }

  lemma {:induction false} ExpireFromReaches(P: Slot -> bool, s: Slot, i: nat, now: int)
    requires Closed(P, false) && P(s) && s.entry.Some?
    ensures P(ExpireFrom(s, i, now))
    decreases |s.entry.value.inflight| - i
  {
    if i < |s.entry.value.inflight| {
      var item := s.entry.value.inflight[i];
      if IsStale(item, now) {
        assert P(Do(s, Fail(i, Expired(item))));
        ExpireFromReaches(P, RetrySlot(s, i, Expired(item)), i, now);
      } else {
        ExpireFromReaches(P, s, i + 1, now);
      }
    }
  }

  lemma {:induction false} TrimAllReaches(P: Slot -> bool, s: Slot)
    requires Closed(P, false) && P(s) && s.entry.Some?
    ensures P(TrimAll(s))
    decreases |s.entry.value.mtQueue|
  {
    if |s.entry.value.mtQueue| > MAX_QUEUE {
      assert P(Do(s, Trim));
      TrimAllReaches(P, TrimSlot(s));
    }
  }

  lemma StepReaches(P: Slot -> bool, k: Key, s: Slot, ev: Event)
    requires Closed(P, ev.Enqueue?) && P(s)
    ensures P(Step(k, s, ev))
  {
    match ev
    case Cleanup(now) =>
      if s.entry.Some? && IsFresh(s.entry.value, now) {
        ExpireFromReaches(P, s, 0, now);
        TrimAllReaches(P, ExpireFrom(s, 0, now));
      } else {
        assert P(Do(s, Close));
      }
    case Register(key, device, now) => assert P(Do(s, Open(device, now)));
    case Touch(key, now) => if s.entry.Some? { assert P(Do(s, Seen(now))); }
    case Unregister(key) => assert P(Do(s, Close));
    case Enqueue(key, id, src, dst, content, now) =>
      if Accepts(s.entry, now) { assert P(Do(s, Accept(Item(id, src, dst, content, now, 0, None)))); }
    case Dequeue(key, max) => if s.entry.Some? { ClaimUpToReaches(P, s, max); }
    case Report(key, id, success, now) =>
      if s.entry.Some? {
        var f := s.entry.value.inflight;
        var i := IndexOf(f, id);
        if i < |f| {
          assert P(Do(s, Finish(i)));
          assert P(Do(s, Fail(i, Reported(f[i], now))));
        }
      }
  }

  lemma {:induction false} RunReaches(P: Slot -> bool, k: Key, s: Slot, events: seq<Event>, grow: bool)
    requires Closed(P, false) && (grow ==> Closed(P, true)) && P(s)
    requires grow || forall i :: 0 <= i < |events| ==> !events[i].Enqueue?
    ensures P(RunFrom(k, s, events))
    decreases |events|
  {
    if events != [] {
      var before := events[..|events| - 1];
      RunReaches(P, k, s, before, grow);
      StepReaches(P, k, RunFrom(k, s, before), events[|events| - 1]);
    }
  }

  // ---- the in-flight map has one entry per id ----

  ghost predicate ItemsDistinct(f: seq<Item>) {
    forall a, b :: 0 <= a < b < |f| ==> f[a].messageId != f[b].messageId
  }

  ghost predicate FlightDistinct(s: Slot) {
    ItemsDistinct(Flight(s))
  }

  lemma PutKeepsDistinct(f: seq<Item>, item: Item)
    requires ItemsDistinct(f)
    ensures ItemsDistinct(Put(f, item))
  {
    hide IndexOf;
  }

  lemma RemoveKeepsDistinct(f: seq<Item>, i: nat)
    requires i < |f| && ItemsDistinct(f)
    ensures ItemsDistinct(RemoveAt(f, i))
  {
  }

  lemma AtomKeepsFlightDistinct(s: Slot, a: Atom)
    requires FlightDistinct(s) && CanDo(s, a)
    ensures FlightDistinct(Do(s, a))
  {
    hide Put, RemoveAt;
    match a
    case Claim => PutKeepsDistinct(Flight(s), Queue(s)[0]);
    case Finish(i) => RemoveKeepsDistinct(Flight(s), i);
    case Fail(i, _) => RemoveKeepsDistinct(Flight(s), i);
    case _ =>
  }

  /** Over every run, whatever ids are enqueued, no two in-flight messages share an id. */
  lemma RunFlightDistinct(k: Key, events: seq<Event>)
    ensures FlightDistinct(Run(k, events))
  {
    var P := s => FlightDistinct(s);
    forall s, a | P(s) && CanDo(s, a) ensures P(Do(s, a)) {
      AtomKeepsFlightDistinct(s, a);
    }
    RunReaches(P, k, NEW_SLOT, events, true);
  }

  // ---- conservation ----

  ghost predicate ConservedIfDistinct(s: Slot) {
    Distinct(s.ledger.accepted) ==> Conserved(s)
  }

  lemma ClaimConserves(s: Slot)
    requires s.entry.Some? && Queue(s) != []
    requires forall j :: 0 <= j < |Flight(s)| ==> Flight(s)[j].messageId != Queue(s)[0].messageId
    ensures multiset(Places(ClaimSlot(s))) == multiset(Places(s))
    ensures Flight(ClaimSlot(s)) == Flight(s) + [Queue(s)[0]]
  {
    PutNew(Flight(s), Queue(s)[0]);
    IdsPop(Queue(s));
    IdsPush(Flight(s), Queue(s)[0]);
    PlacesCounts(s);
    PlacesCounts(ClaimSlot(s));
  }

  lemma AcceptedPrefix(s: Slot, a: Atom)
    requires CanDo(s, a) && Distinct(Do(s, a).ledger.accepted)
    ensures Distinct(s.ledger.accepted)
  {
    var x, y := s.ledger.accepted, Do(s, a).ledger.accepted;
    assert x == y[..|x|];
  }

  lemma DoneAppend(done: seq<(string, Outcome)>, ids: seq<string>)
    ensures multiset(DoneIds(done + Outcomes(ids, Discarded))) == multiset(DoneIds(done)) + multiset(ids)
  {
    assert DoneIds(done + Outcomes(ids, Discarded)) == DoneIds(done) + ids;
  }

  lemma CloseConserves(s: Slot)
    ensures multiset(Places(CloseSlot(s))) == multiset(Places(s))
  {
    if s.entry.Some? {
      var done, q, f := s.ledger.done, Queue(s), Flight(s);
      PlacesCounts(s);
      PlacesCounts(CloseSlot(s));
      DoneAppend(done, Ids(q));
      DoneAppend(done + Outcomes(Ids(q), Discarded), Ids(f));
    }
  }

  lemma AcceptConserves(s: Slot, item: Item)
    requires s.entry.Some?
    ensures multiset(Places(AcceptSlot(s, item))) == multiset(Places(s)) + multiset{item.messageId}
  {
    IdsPush(Queue(s), item);
    PlacesCounts(s);
    PlacesCounts(AcceptSlot(s, item));
  }

  lemma FinishConserves(s: Slot, i: nat)
    requires s.entry.Some? && i < |Flight(s)|
    ensures multiset(Places(CompleteSlot(s, i))) == multiset(Places(s))
  {
    IdsRemove(Flight(s), i);
    DonePush(s.ledger.done, Flight(s)[i].messageId, Delivered);
    PlacesCounts(s);
    PlacesCounts(CompleteSlot(s, i));
  }

  lemma FailConserves(s: Slot, i: nat, failed: Item)
    requires s.entry.Some? && i < |Flight(s)| && failed.messageId == Flight(s)[i].messageId
    ensures multiset(Places(RetrySlot(s, i, failed))) == multiset(Places(s))
  {
    IdsRemove(Flight(s), i);
    IdsPush(Queue(s), failed);
    DonePush(s.ledger.done, failed.messageId, Dropped);
    PlacesCounts(s);
    PlacesCounts(RetrySlot(s, i, failed));
  }

  lemma TrimConserves(s: Slot)
    requires s.entry.Some? && Queue(s) != []
    ensures multiset(Places(TrimSlot(s))) == multiset(Places(s))
  {
    IdsPop(Queue(s));
    DonePush(s.ledger.done, Queue(s)[0].messageId, Trimmed);
    PlacesCounts(s);
    PlacesCounts(TrimSlot(s));
  }

  lemma AtomConserves(s: Slot, a: Atom)
    requires Conserved(s) && CanDo(s, a) && Distinct(s.ledger.accepted)
    ensures Conserved(Do(s, a))
  {
    match a
    case Open(device, now) => assert Places(OpenSlot(s, device, now)) == Places(s);
    case Seen(_) => assert Places(Do(s, a)) == Places(s);
    case Close => CloseConserves(s);
    case Accept(item) => AcceptConserves(s, item);
    case Claim =>
      PlacesDistinct(s);
      ClaimConserves(s);
    case Finish(i) => FinishConserves(s, i);
    case Fail(i, failed) => FailConserves(s, i, failed);
    case Trim => TrimConserves(s);
  }

  /** Each accepted message is queued, in flight or finished: one place, once. */
  lemma ExactlyOnePlace(k: Key, events: seq<Event>)
    requires Distinct(Run(k, events).ledger.accepted)
    ensures multiset(Places(Run(k, events))) == multiset(Run(k, events).ledger.accepted)
    ensures Distinct(Places(Run(k, events)))
  {
    var P := s => ConservedIfDistinct(s);
    forall s, a | P(s) && CanDo(s, a) ensures P(Do(s, a)) {
      if Distinct(Do(s, a).ledger.accepted) {
        AcceptedPrefix(s, a);
        AtomConserves(s, a);
      }
    }
    assert Places(NEW_SLOT) == [];
    RunReaches(P, k, NEW_SLOT, events, true);
    PlacesDistinct(Run(k, events));
  }

  // ---- queue shape and bounded attempts ----

  ghost predicate ShapedAndBounded(s: Slot) {
    && (s.entry.Some? ==> Shaped(s.ledger, s.entry.value.mtQueue))
    && AttemptsBounded(s)
  }

  /** A first claim takes the oldest unclaimed acceptance: nothing retried is left before it. */
  lemma FirstClaimShapes(l: Ledger, q: seq<Item>)
    requires q != [] && Shaped(l, q) && q[0].attempts == 0
    ensures Shaped(l.(firstClaims := l.firstClaims + [q[0].messageId]), q[1..])
  {
    var a, n := l.accepted, Unclaimed(l);
    assert n == |q|;
    assert q[0].messageId == a[|a| - n];
    assert a[l.base..|a| - (n - 1)] == a[l.base..|a| - n] + [a[|a| - n]];
    forall j | 0 <= j < |q| - 1
      ensures q[1..][j].attempts == 0 && q[1..][j].messageId == a[|a| - |q[1..]| + j]
    {
      assert q[1..][j] == q[j + 1] && |a| - |q| + (j + 1) == |a| - |q[1..]| + j;
    }
  }

  lemma RetriedClaimShapes(l: Ledger, q: seq<Item>)
    requires q != [] && Shaped(l, q) && q[0].attempts > 0
    ensures Shaped(l, q[1..])
  {
    var a, n := l.accepted, Unclaimed(l);
    assert n < |q|;
    assert forall j :: 0 <= j < |q| - 1 ==> q[1..][j] == q[j + 1];
    forall j | |q| - 1 - n <= j < |q| - 1
      ensures q[1..][j].attempts == 0 && q[1..][j].messageId == a[|a| - |q[1..]| + j]
    {
      assert q[j + 1].messageId == a[|a| - |q| + (j + 1)] && |a| - |q| + (j + 1) == |a| - |q[1..]| + j;
    }
  }

  lemma AcceptShapes(l: Ledger, q: seq<Item>, item: Item)
    requires Shaped(l, q) && |q| < MAX_QUEUE && item.attempts == 0
    ensures Shaped(l.(accepted := l.accepted + [item.messageId]), q + [item])
  {
    var a, n := l.accepted, Unclaimed(l);
    var a', q' := a + [item.messageId], q + [item];
    assert a'[l.base..|a'| - (n + 1)] == a[l.base..|a| - n];
    forall j | |q| - n <= j < |q'|
      ensures q'[j].attempts == 0 && q'[j].messageId == a'[|a'| - |q'| + j]
    {
      if j < |q| {
        assert q'[j] == q[j] && a'[|a'| - |q'| + j] == a[|a| - |q| + j];
      } else {
        assert q'[j] == item && a'[|a'| - |q'| + j] == a'[|a|];
      }
    }
  }

  lemma PushFrontShapes(l: Ledger, q: seq<Item>, item: Item)
    requires Shaped(l, q) && item.attempts > 0
    ensures Shaped(l, [item] + q)
  {
    assert forall j :: 1 <= j < |q| + 1 ==> ([item] + q)[j] == q[j - 1];
  }

  lemma TrimShapes(l: Ledger, q: seq<Item>)
    requires Shaped(l, q) && |q| > MAX_QUEUE
    ensures q[0].attempts > 0 && Shaped(l, q[1..])
  {
    assert forall j :: 0 <= j < |q| - 1 ==> q[1..][j] == q[j + 1];
  }

  /** The shape looks at the acceptances and first claims only. */
  lemma SameShape(l: Ledger, l': Ledger, q: seq<Item>)
    requires Shaped(l, q)
    requires l'.accepted == l.accepted && l'.base == l.base && l'.firstClaims == l.firstClaims
    ensures Shaped(l', q)
  {
  }

  lemma EmptyShape(l: Ledger)
    requires l.base == |l.accepted| && l.firstClaims == []
    ensures Shaped(l, [])
  {
  }

  lemma AtomShapes(s: Slot, a: Atom)
    requires s.entry.Some? ==> Shaped(s.ledger, s.entry.value.mtQueue)
    requires CanDo(s, a)
    ensures var t := Do(s, a); t.entry.Some? ==> Shaped(t.ledger, t.entry.value.mtQueue)
  {
    hide Shaped, Unclaimed, Put, RemoveAt;
    var l, q, t := s.ledger, Queue(s), Do(s, a);
    match a
    case Open(_, _) => if s.entry.None? { EmptyShape(t.ledger); }
    case Seen(_) =>
    case Close =>
    case Accept(item) => AcceptShapes(l, q, item);
    case Claim =>
      if q[0].attempts == 0 {
        FirstClaimShapes(l, q);
        SameShape(l.(firstClaims := l.firstClaims + [q[0].messageId]), t.ledger, q[1..]);
      } else {
        RetriedClaimShapes(l, q);
        SameShape(l, t.ledger, q[1..]);
      }
    case Finish(_) => SameShape(l, t.ledger, q);
    case Fail(_, failed) =>
      PushFrontShapes(l, q, failed);
      SameShape(l, t.ledger, q);
      SameShape(l, t.ledger, [failed] + q);
    case Trim =>
      TrimShapes(l, q);
      SameShape(l, t.ledger, q[1..]);
  }

  lemma BoundedMoves(q: seq<Item>, f: seq<Item>, i: nat)
    requires Bounded(q) && Bounded(f)
    ensures q != [] ==> Bounded(q[1..]) && Bounded(Put(f, q[0]))
    ensures i < |f| ==> Bounded(RemoveAt(f, i))
  {
  }

  lemma AtomBounds(s: Slot, a: Atom)
    requires AttemptsBounded(s) && CanDo(s, a)
    ensures AttemptsBounded(Do(s, a))
  {
    hide Put, RemoveAt;
    match a
    case Claim => BoundedMoves(Queue(s), Flight(s), 0);
    case Finish(i) => BoundedMoves(Queue(s), Flight(s), i);
    case Fail(i, _) => BoundedMoves(Queue(s), Flight(s), i);
    case Trim => BoundedMoves(Queue(s), Flight(s), 0);
    case _ =>
  }

  lemma RunShapes(k: Key, events: seq<Event>)
    ensures ShapedAndBounded(Run(k, events))
  {
    var P := s => ShapedAndBounded(s);
    forall s, a | P(s) && CanDo(s, a) ensures P(Do(s, a)) {
      AtomShapes(s, a);
      AtomBounds(s, a);
    }
    RunReaches(P, k, NEW_SLOT, events, true);
  }

  /**
   The queue is retried messages followed by the unclaimed tail of the acceptance
   order, at most MAX_QUEUE long; so first hand-outs follow acceptance order.
   */
  lemma QueueShape(k: Key, events: seq<Event>)
    requires Run(k, events).entry.Some?
    ensures var s := Run(k, events);
            var l, q := s.ledger, Queue(s);
            exists r :: 0 <= r <= |q| && |q| - r <= MAX_QUEUE
              && (forall j :: 0 <= j < r ==> q[j].attempts > 0)
              && (forall j :: r <= j < |q| ==> q[j].attempts == 0)
              && l.base <= |l.accepted|
              && l.accepted[l.base..] == l.firstClaims + Ids(q[r..])
  {
    RunShapes(k, events);
    var s := Run(k, events);
    var l, q := s.ledger, Queue(s);
    var r := |q| - Unclaimed(l);
    assert Ids(q[r..]) == l.accepted[|l.accepted| - Unclaimed(l)..];
    assert l.accepted[l.base..] == l.firstClaims + Ids(q[r..]);
  }

  lemma {:induction false} TrimAllKeepsNewest(s: Slot)
    requires s.entry.Some?
    ensures var q := Queue(s);
            Queue(TrimAll(s)) == if |q| <= MAX_QUEUE then q else q[|q| - MAX_QUEUE..]
    ensures Flight(TrimAll(s)) == Flight(s)
    decreases |Queue(s)|
  {
    var q := Queue(s);
    if |q| > MAX_QUEUE {
      TrimAllKeepsNewest(TrimSlot(s));
      assert |q| - 1 > MAX_QUEUE ==> q[1..][|q| - 1 - MAX_QUEUE..] == q[|q| - MAX_QUEUE..];
    }
  }

  lemma {:induction false} ExpireFromSweeps(s: Slot, i: nat, now: int)
    requires s.entry.Some? && i <= |Flight(s)|
    requires forall j :: 0 <= j < i ==> !IsStale(Flight(s)[j], now)
    ensures forall j :: 0 <= j < |Flight(ExpireFrom(s, i, now))| ==> !IsStale(Flight(ExpireFrom(s, i, now))[j], now)
    decreases |Flight(s)| - i
  {
    if i < |Flight(s)| {
      var item := Flight(s)[i];
      if IsStale(item, now) {
        ExpireFromSweeps(RetrySlot(s, i, Expired(item)), i, now);
      } else {
        ExpireFromSweeps(s, i + 1, now);
      }
    }
  }

  /** After the maintenance no queue is over MAX_QUEUE and nothing in flight is overdue. */
  lemma CleanupRestoresBounds(s: Slot, now: int)
    ensures var t := CleanSlot(s, now);
            && |Queue(t)| <= MAX_QUEUE
            && (forall j :: 0 <= j < |Flight(t)| ==> !IsStale(Flight(t)[j], now))
            && (t.entry.Some? ==> IsFresh(s.entry.value, now))
  {
    if s.entry.Some? && IsFresh(s.entry.value, now) {
      ExpireFromSweeps(s, 0, now);
      TrimAllKeepsNewest(ExpireFrom(s, 0, now));
    }
  }

  // ---- hand-outs ----

  ghost predicate CountedIfDistinct(s: Slot) {
    ShapedAndBounded(s) && (Distinct(s.ledger.accepted) ==> Conserved(s) && Counted(s))
  }

  /** Claims of other messages leave these counts alone. */
  lemma HandedKept(items: seq<Item>, claims: seq<string>, id: string, extra: nat)
    requires HandedAll(items, claims, extra)
    requires forall i :: 0 <= i < |items| ==> items[i].messageId != id
    ensures HandedAll(items, claims + [id], extra)
  {
    OtherHandOuts(claims, id);
  }

  lemma OutcomesKept(done: seq<(string, Outcome)>, claims: seq<string>, id: string)
    requires OutcomesFit(done, claims)
    requires forall i :: 0 <= i < |done| ==> done[i].0 != id
    ensures OutcomesFit(done, claims + [id])
  {
    hide HandedOut;
    OtherHandOuts(claims, id);
    forall i | 0 <= i < |done|
      ensures OutcomeFits(done[i], claims + [id])
    {
      assert OutcomeFits(done[i], claims);
    }
  }

  lemma ClaimCounts(s: Slot)
    requires Distinct(s.ledger.accepted) && Conserved(s) && Counted(s)
    requires s.entry.Some? && Queue(s) != []
    ensures Counted(ClaimSlot(s))
  {
    hide HandedOut, OutcomeFits, OutcomesFit, Distinct, Places, Put;
    var q, f, c := Queue(s), Flight(s), s.ledger.claims;
    var head := q[0];
    PlacesDistinct(s);
    ClaimConserves(s);
    OtherHandOuts(c, head.messageId);
    assert forall i :: 0 <= i < |q| - 1 ==> q[1..][i] == q[i + 1];
    HandedKept(q[1..], c, head.messageId, 0);
    HandedKept(f, c, head.messageId, 1);
    OutcomesKept(s.ledger.done, c, head.messageId);
    HeadAccepted(s);
  }

  lemma HeadAccepted(s: Slot)
    requires Conserved(s) && Queue(s) != []
    ensures Queue(s)[0].messageId in s.ledger.accepted
  {
    assert Queue(s)[0].messageId == Places(s)[0];
    assert Places(s)[0] in multiset(Places(s));
    assert Places(s)[0] in multiset(s.ledger.accepted);
  }

  lemma AtomCounts(s: Slot, a: Atom)
    requires ShapedAndBounded(s) && CanDo(s, a)
    requires Distinct(Do(s, a).ledger.accepted) && Distinct(s.ledger.accepted) && Conserved(s) && Counted(s)
    ensures Counted(Do(s, a))
  {
    match a
    case Close => if s.entry.Some? { DiscardFits(s.ledger.done, Queue(s), Flight(s), s.ledger.claims); }
    case Accept(item) => AcceptCounts(s, item);
    case Claim => ClaimCounts(s);
    case Finish(i) => FinishCounts(s, i);
    case Fail(i, failed) => FailCounts(s, i, failed);
    case Trim => TrimCounts(s);
    case _ =>
  }

  lemma FinishCounts(s: Slot, i: nat)
    requires Counted(s) && Bounded(Flight(s)) && s.entry.Some? && i < |Flight(s)|
    ensures Counted(CompleteSlot(s, i))
  {
    RemoveKeepsItems(Flight(s), i, s.ledger.claims);
    assert OutcomeFits((Flight(s)[i].messageId, Delivered), s.ledger.claims);
  }

  lemma FailCounts(s: Slot, i: nat, failed: Item)
    requires Counted(s) && Bounded(Flight(s)) && s.entry.Some? && i < |Flight(s)|
    requires failed.messageId == Flight(s)[i].messageId && failed.attempts == Flight(s)[i].attempts + 1
    ensures Counted(RetrySlot(s, i, failed))
  {
    RemoveKeepsItems(Flight(s), i, s.ledger.claims);
    assert failed.attempts >= MAX_ATTEMPTS ==> OutcomeFits((failed.messageId, Dropped), s.ledger.claims);
  }

  lemma TrimCounts(s: Slot)
    requires Counted(s) && ShapedAndBounded(s) && s.entry.Some? && |Queue(s)| > MAX_QUEUE
    ensures Counted(TrimSlot(s))
  {
    var q, c := Queue(s), s.ledger.claims;
    TrimShapes(s.ledger, q);
    assert HandedOut(c, q[0].messageId) == q[0].attempts;
    assert OutcomeFits((q[0].messageId, Trimmed), c);
  }

  lemma AcceptCounts(s: Slot, item: Item)
    requires Counted(s) && s.entry.Some? && item.attempts == 0
    requires Distinct(AcceptSlot(s, item).ledger.accepted)
    ensures Counted(AcceptSlot(s, item))
  {
    var a, c := s.ledger.accepted, s.ledger.claims;
    var a' := AcceptSlot(s, item).ledger.accepted;
    assert forall i :: 0 <= i < |a| ==> a[i] == a'[i] && a'[i] != a'[|a|];
    assert item.messageId !in c;
    assert HandedOut(c, item.messageId) == 0;
  }

  lemma DiscardFits(d: seq<(string, Outcome)>, q: seq<Item>, f: seq<Item>, c: seq<string>)
    requires OutcomesFit(d, c) && HandedAll(q, c, 0) && HandedAll(f, c, 1) && Bounded(q) && Bounded(f)
    ensures OutcomesFit(d + Outcomes(Ids(q), Discarded) + Outcomes(Ids(f), Discarded), c)
  {
    assert OutcomesFit(Outcomes(Ids(q), Discarded), c);
    assert OutcomesFit(Outcomes(Ids(f), Discarded), c);
  }

  lemma RunCounts(k: Key, events: seq<Event>)
    ensures CountedIfDistinct(Run(k, events))
  {
    var P := s => CountedIfDistinct(s);
    forall s, a | P(s) && CanDo(s, a) ensures P(Do(s, a)) {
      AtomShapes(s, a);
      AtomBounds(s, a);
      if Distinct(Do(s, a).ledger.accepted) {
        AcceptedPrefix(s, a);
        AtomConserves(s, a);
        AtomCounts(s, a);
      }
    }
    assert Places(NEW_SLOT) == [];
    RunReaches(P, k, NEW_SLOT, events, true);
  }

  /**
   A message is handed out as often as it has attempts, plus once while in flight;
   a dropped one exactly MAX_ATTEMPTS times, a trimmed one at least once.
   */
  lemma HandOuts(k: Key, events: seq<Event>)
    requires Distinct(Run(k, events).ledger.accepted)
    ensures var s := Run(k, events);
            var c := s.ledger.claims;
            && (forall i :: 0 <= i < |Queue(s)| ==> HandedOut(c, Queue(s)[i].messageId) == Queue(s)[i].attempts)
            && (forall i :: 0 <= i < |Flight(s)| ==> HandedOut(c, Flight(s)[i].messageId) == Flight(s)[i].attempts + 1)
            && (forall d :: d in s.ledger.done ==> OutcomeFits(d, c))
  {
    RunCounts(k, events);
  }

  /** No message is ever handed out more than MAX_ATTEMPTS times. */
  lemma HandOutsBounded(k: Key, events: seq<Event>, id: string)
    requires Distinct(Run(k, events).ledger.accepted)
    ensures HandedOut(Run(k, events).ledger.claims, id) <= MAX_ATTEMPTS
  {
    var s := Run(k, events);
    RunCounts(k, events);
    if id in s.ledger.claims {
      assert id in Places(s) by {
        assert id in multiset(s.ledger.accepted);
        assert id in multiset(Places(s));
      }
      var p :| 0 <= p < |Places(s)| && Places(s)[p] == id;
      PlaceBounded(s, p);
    }
  }

  lemma PlaceBounded(s: Slot, p: nat)
    requires Counted(s) && Bounded(Queue(s)) && Bounded(Flight(s)) && p < |Places(s)|
    ensures HandedOut(s.ledger.claims, Places(s)[p]) <= MAX_ATTEMPTS
  {
    var q, f, d := Queue(s), Flight(s), s.ledger.done;
    if p < |q| {
      assert Places(s)[p] == q[p].messageId;
    } else if p < |q| + |f| {
      assert Places(s)[p] == f[p - |q|].messageId;
    } else {
      assert Places(s)[p] == d[p - |q| - |f|].0;
      assert OutcomeFits(d[p - |q| - |f|], s.ledger.claims);
    }
  }

  // ---- distinct ids are needed ----

  /** A claim conserves messages if and only if its id is not already in flight. */
  lemma ClaimConservesIff(s: Slot)
    requires s.entry.Some? && Queue(s) != [] && Conserved(s)
    ensures Conserved(ClaimSlot(s)) <==> IndexOf(Flight(s), Queue(s)[0].messageId) == |Flight(s)|
  {
    hide Places, Put;
    if IndexOf(Flight(s), Queue(s)[0].messageId) == |Flight(s)| {
      ClaimConserves(s);
    } else {
      RepeatedClaimShrinks(s);
      assert |multiset(Places(ClaimSlot(s)))| == |multiset(Places(s))| - 1;
    }
  }

  lemma RepeatedClaimShrinks(s: Slot)
    requires s.entry.Some? && Queue(s) != [] && IndexOf(Flight(s), Queue(s)[0].messageId) < |Flight(s)|
    ensures |Places(ClaimSlot(s))| == |Places(s)| - 1
  {
  }

  lemma RunOneMore(k: Key, s: Slot, events: seq<Event>, e: Event)
    ensures RunFrom(k, s, events + [e]) == Step(k, RunFrom(k, s, events), e)
  {
    hide Step;
    assert (events + [e])[..|events|] == events;
  }

  lemma FourCalls(k: Key, a: Event, b: Event, c: Event, d: Event)
    ensures Run(k, [a, b, c, d]) == Step(k, Step(k, Step(k, Step(k, NEW_SLOT, a), b), c), d)
  {
    hide Step;
    RunOneMore(k, NEW_SLOT, [], a);
    RunOneMore(k, NEW_SLOT, [a], b);
    RunOneMore(k, NEW_SLOT, [a, b], c);
    RunOneMore(k, NEW_SLOT, [a, b, c], d);
    assert [] + [a] == [a] && [a] + [b] == [a, b] && [a, b] + [c] == [a, b, c] && [a, b, c] + [d] == [a, b, c, d];
  }

  /** Two queued messages with one id: claiming both loses one. */
  lemma ClaimBothLoses(s: Slot, item: Item)
    requires s.entry.Some? && Queue(s) == [item, item] && Flight(s) == [] && Conserved(s)
    ensures !Conserved(ClaimUpTo(s, 2))
  {
    hide Conserved;
    var t := ClaimSlot(s);
    ClaimConservesIff(s);
    assert IndexOf(Flight(s), item.messageId) == |Flight(s)|;
    assert Queue(t) == [item] && Flight(t) == [item];
    ClaimConservesIff(t);
    assert IndexOf(Flight(t), item.messageId) == 0;
    assert ClaimUpTo(s, 2) == ClaimUpTo(t, 1);
    assert Queue(ClaimSlot(t)) == [] && ClaimUpTo(t, 1) == ClaimUpTo(ClaimSlot(t), 0) == ClaimSlot(t);
  }

  lemma AcceptTwice(k: Key, device: Device, e: Event, item: Item)
    requires e.Enqueue? && e.key == k && item == Item(e.messageId, e.source, e.destination, e.content, e.now, 0, None)
    ensures var s := Step(k, Step(k, Step(k, NEW_SLOT, Register(k, device, e.now)), e), e);
            s.entry.Some? && Queue(s) == [item, item] && Flight(s) == [] && Conserved(s)
  {
    hide Conserved, Places;
    var s0 := Step(k, NEW_SLOT, Register(k, device, e.now));
    assert Queue(s0) == [] && Flight(s0) == [] && s0.ledger.accepted == [] && s0.ledger.done == [];
    var s1 := Step(k, s0, e);
    assert s1 == AcceptSlot(s0, item) && Queue(s1) == [item];
    var s2 := Step(k, s1, e);
    assert s2 == AcceptSlot(s1, item) && Queue(s2) == [item, item];
    TwoConserved(s2, item);
  }

  lemma TwoConserved(s: Slot, item: Item)
    requires Queue(s) == [item, item] && Flight(s) == [] && s.ledger.done == []
    requires s.ledger.accepted == [item.messageId, item.messageId]
    ensures Conserved(s)
  {
    assert Places(s) == s.ledger.accepted;
  }

  /** Accepting any one id twice and claiming both loses a message. */
  lemma DuplicateIdsLoseAMessage(k: Key, device: Device, e: Event)
    requires e.Enqueue? && e.key == k
    ensures !Conserved(Run(k, [Register(k, device, e.now), e, e, Dequeue(k, 2)]))
  {
    hide Conserved, ClaimUpTo, Run, RunFrom, OpenSlot, Accepts, AcceptSlot;
    var r, item := Register(k, device, e.now), Item(e.messageId, e.source, e.destination, e.content, e.now, 0, None);
    FourCalls(k, r, e, e, Dequeue(k, 2));
    AcceptTwice(k, device, e, item);
    ClaimBothLoses(Step(k, Step(k, Step(k, NEW_SLOT, r), e), e), item);
  }

  // ---- draining ----

  /** A queued message can still be claimed and fail MAX_ATTEMPTS - attempts times. */
  function QueueWeight(q: seq<Item>): int {
    if q == [] then 0 else 2 * (MAX_ATTEMPTS - q[0].attempts) + QueueWeight(q[1..])
  }

  function FlightWeight(f: seq<Item>): int {
    if f == [] then 0 else 2 * (MAX_ATTEMPTS - f[0].attempts) - 1 + FlightWeight(f[1..])
  }

  function Measure(s: Slot): int {
    QueueWeight(Queue(s)) + FlightWeight(Flight(s))
  }

  lemma {:induction false} QueueWeightBounds(q: seq<Item>)
    requires forall i :: 0 <= i < |q| ==> q[i].attempts < MAX_ATTEMPTS
    ensures 2 * |q| <= QueueWeight(q) <= 2 * MAX_ATTEMPTS * |q|
  {
    if q != [] { QueueWeightBounds(q[1..]); }
  }

  lemma {:induction false} FlightWeightBounds(f: seq<Item>)
    requires forall i :: 0 <= i < |f| ==> f[i].attempts < MAX_ATTEMPTS
    ensures |f| <= FlightWeight(f)
  {
    if f != [] { FlightWeightBounds(f[1..]); }
  }

  lemma {:induction false} FlightWeightAdds(a: seq<Item>, b: seq<Item>)
    ensures FlightWeight(a + b) == FlightWeight(a) + FlightWeight(b)
  {
    if a == [] {
      assert a + b == b;
    } else {
      assert (a + b)[1..] == a[1..] + b;
      FlightWeightAdds(a[1..], b);
    }
  }

  lemma FlightWeightAt(f: seq<Item>, i: nat)
    requires i < |f|
    ensures FlightWeight(f) == FlightWeight(RemoveAt(f, i)) + 2 * (MAX_ATTEMPTS - f[i].attempts) - 1
    ensures forall it: Item :: FlightWeight(f[i := it]) == FlightWeight(RemoveAt(f, i)) + 2 * (MAX_ATTEMPTS - it.attempts) - 1
  {
    forall it: Item
      ensures FlightWeight(f[i := it]) == FlightWeight(RemoveAt(f, i)) + 2 * (MAX_ATTEMPTS - it.attempts) - 1
    {
      assert f[i := it] == f[..i] + ([it] + f[i + 1..]);
      assert ([it] + f[i + 1..])[1..] == f[i + 1..];
      FlightWeightAdds(f[..i], [it] + f[i + 1..]);
      FlightWeightAdds(f[..i], f[i + 1..]);
    }
    assert f[i := f[i]] == f;
  }

  /** What one step may do: spend measure for every unit of work, keep attempts bounded. */
  ghost predicate Drains(s: Slot, t: Slot) {
    && AttemptsBounded(t)
    && s.ledger.work <= t.ledger.work
    && Measure(t) + (t.ledger.work - s.ledger.work) <= Measure(s)
  }

  lemma ClaimDrains(s: Slot)
    requires AttemptsBounded(s) && s.entry.Some? && Queue(s) != []
    ensures Drains(s, ClaimSlot(s))
  {
    var f, head := Flight(s), Queue(s)[0];
    var i := IndexOf(f, head.messageId);
    if i < |f| {
      FlightWeightAt(f, i);
    } else {
      FlightWeightAdds(f, [head]);
      assert FlightWeight([head]) == 2 * (MAX_ATTEMPTS - head.attempts) - 1;
    }
  }

  lemma CompleteDrains(s: Slot, i: nat)
    requires AttemptsBounded(s) && s.entry.Some? && i < |Flight(s)|
    ensures Drains(s, CompleteSlot(s, i))
  {
    FlightWeightAt(Flight(s), i);
  }

  lemma RetryDrains(s: Slot, i: nat, failed: Item)
    requires AttemptsBounded(s) && s.entry.Some? && i < |Flight(s)|
    requires failed.attempts == Flight(s)[i].attempts + 1
    ensures Drains(s, RetrySlot(s, i, failed))
  {
    var t := RetrySlot(s, i, failed);
    FlightWeightAt(Flight(s), i);
    if failed.attempts < MAX_ATTEMPTS {
      assert Queue(t)[1..] == Queue(s);
    }
  }

  lemma AtomDrains(s: Slot, a: Atom)
    requires AttemptsBounded(s) && CanDo(s, a) && !a.Accept?
    ensures Drains(s, Do(s, a))
  {
    match a
    case Close =>
      QueueWeightBounds(Queue(s));
      FlightWeightBounds(Flight(s));
    case Claim => ClaimDrains(s);
    case Finish(i) => CompleteDrains(s, i);
    case Fail(i, failed) => RetryDrains(s, i, failed);
    case _ =>
  }

  /** Every step but an acceptance pays for its work out of the measure. */
  lemma RunDrains(k: Key, s: Slot, events: seq<Event>)
    requires AttemptsBounded(s)
    requires forall i :: 0 <= i < |events| ==> !events[i].Enqueue?
    ensures Drains(s, RunFrom(k, s, events))
  {
    var P := t => Drains(s, t);
    forall t, a | P(t) && CanDo(t, a) && !a.Accept? ensures P(Do(t, a)) { AtomDrains(t, a); }
    RunReaches(P, k, s, events, false);
  }

  /**
   From n queued messages and no new ones, at most 2 * MAX_ATTEMPTS * n claims,
   reports and time-outs can happen; and once that many have, nothing is left.
   */
  lemma DrainBound(k: Key, s: Slot, events: seq<Event>)
    requires AttemptsBounded(s) && Flight(s) == []
    requires forall i :: 0 <= i < |events| ==> !events[i].Enqueue?
    ensures var t := RunFrom(k, s, events);
            var work, bound := t.ledger.work - s.ledger.work, 2 * MAX_ATTEMPTS * |Queue(s)|;
            && 0 <= work <= bound
            && (work == bound ==> Queue(t) == [] && Flight(t) == [])
  {
    var t := RunFrom(k, s, events);
    RunDrains(k, s, events);
    QueueWeightBounds(Queue(s));
    QueueWeightBounds(Queue(t));
    FlightWeightBounds(Flight(t));
  }
}
