/**
 The in-memory queue of delivery receipts: a map from (tenant, client) to a
 bounded list, changed in place. `Contents` folds a history of calls for one
 key; the class `DlrQueues` is the imperative code tied to it.
 */
module DlrQueue {
  import opened Wrappers

  const MAX_DLR_QUEUE_PER_CLIENT := 1000
  const DLR_QUEUE_TTL_MS := 600_000

  datatype Key = Key(tenantId: int, clientId: int)

  datatype Dlr = Dlr(messageId: string, supplierMessageId: string, status: string, submitDate: string,
                     doneDate: string, errorCode: string, dest: string, src: string)

  /** `picks` names the claimed receipts that are given back (bookkeeping only). */
  datatype Event =
    | Enqueue(key: Key, dlr: Dlr)
    | DequeueAll(key: Key)
    | Requeue(key: Key, dlrs: seq<Dlr>, picks: seq<nat>)
    | Cleanup(cutoff: int, parse: string -> Option<int>)

  function Enqueued(q: seq<Dlr>, d: Dlr): (r: seq<Dlr>)
    ensures |q| >= MAX_DLR_QUEUE_PER_CLIENT ==> |r| == |q|
    ensures |q| < MAX_DLR_QUEUE_PER_CLIENT ==> |r| == |q| + 1
  {
    (if |q| >= MAX_DLR_QUEUE_PER_CLIENT then q[1..] else q) + [d]
  }

  /** parseInt(submitDate) * 1000 > cutoff; an unparseable date is stale. */
  predicate Keeps(d: Dlr, cutoff: int, parse: string -> Option<int>) {
    parse(d.submitDate).Some? && parse(d.submitDate).value * 1000 > cutoff
  }

  function Filtered(q: seq<Dlr>, cutoff: int, parse: string -> Option<int>): (r: seq<Dlr>)
    ensures |r| <= |q|
    ensures |r| == |q| ==> r == q
  {
    if q == [] then []
    else (if Keeps(q[0], cutoff, parse) then [q[0]] else []) + Filtered(q[1..], cutoff, parse)
  }

  /** The filter loses every receipt that is stale and no other, however often it occurs. */
  lemma {:induction false} FilteredIsExact(q: seq<Dlr>, cutoff: int, parse: string -> Option<int>, d: Dlr)
    ensures multiset(Filtered(q, cutoff, parse))[d] == if Keeps(d, cutoff, parse) then multiset(q)[d] else 0
  {
    if |q| > 0 {
      hide Keeps;
      FilteredIsExact(q[1..], cutoff, parse, d);
      assert q == [q[0]] + q[1..];
    }
  }

  function Step(k: Key, q: seq<Dlr>, e: Event): seq<Dlr> {
    match e
    case Enqueue(key, d) => if key == k then Enqueued(q, d) else q
    case DequeueAll(key) => if key == k then [] else q
    case Requeue(key, dlrs, _) => if key == k then q + dlrs else q
    case Cleanup(cutoff, parse) => Filtered(q, cutoff, parse)
  }

  function Contents(k: Key, events: seq<Event>): seq<Dlr> {
    if events == [] then []
    else Step(k, Contents(k, events[..|events| - 1]), events[|events| - 1])
  }

  function Lookup(m: map<Key, seq<Dlr>>, k: Key): seq<Dlr> {
    if k in m then m[k] else []
  }

  /** The keys outside `todo` whose queue the filter shortens. */
  ghost function Touched<T>(m: map<Key, seq<T>>, kept: map<Key, seq<T>>, todo: set<Key>): set<Key> {
    set k | k in m && k in kept && k !in todo && kept[k] != m[k]
  }

  lemma TouchedStep<T>(m: map<Key, seq<T>>, kept: map<Key, seq<T>>, todo: set<Key>, k: Key)
    requires k in m && k in kept && k in todo
    ensures |Touched(m, kept, todo - {k})| == |Touched(m, kept, todo)| + if kept[k] != m[k] then 1 else 0
  {
    assert Touched(m, kept, todo - {k}) == Touched(m, kept, todo) + if kept[k] != m[k] then {k} else {};
  }

  class DlrQueues {
    var pending: map<Key, seq<Dlr>>
    ghost var history: seq<Event>

    ghost predicate Valid()
      reads this
    {
      && (forall k :: k in pending ==> |pending[k]| > 0)
      && (forall k: Key :: Lookup(pending, k) == Contents(k, history))
    }

    constructor ()
      ensures Valid() && pending == map[] && history == []
    {
      pending := map[];
      history := [];
    }

    method Record(ghost e: Event)
      requires forall k :: k in pending ==> |pending[k]| > 0
      requires forall k: Key :: Lookup(pending, k) == Step(k, Contents(k, history), e)
      modifies this`history
      ensures history == old(history) + [e] && Valid()
    {
      assert (history + [e])[..|history|] == history;
      history := history + [e];
    }

    method EnqueueDlr(key: Key, dlr: Dlr) returns (depth: nat, dropped: bool)
      requires Valid()
      modifies this
      ensures Valid() && history == old(history) + [Enqueue(key, dlr)]
      ensures pending == old(pending)[key := Enqueued(Lookup(old(pending), key), dlr)]
      ensures depth == |pending[key]|
      ensures dropped <==> |Lookup(old(pending), key)| >= MAX_DLR_QUEUE_PER_CLIENT
    {
      var queue := if key in pending then pending[key] else [];
      dropped := false;
      if |queue| >= MAX_DLR_QUEUE_PER_CLIENT {
        queue := queue[1..];
        dropped := true;
      }
      queue := queue + [dlr];
      pending := pending[key := queue];
      depth := |queue|;
      Record(Enqueue(key, dlr));
    }

    method DequeueAllDlrs(key: Key) returns (dlrs: seq<Dlr>)
      requires Valid()
      modifies this
      ensures Valid() && history == old(history) + [DequeueAll(key)]
      ensures dlrs == Lookup(old(pending), key)
      ensures pending == old(pending) - {key}
    {
      dlrs := [];
      if key in pending {
        dlrs := pending[key];
        pending := pending - {key};
      }
      Record(DequeueAll(key));
    }

    method RequeueDlrs(key: Key, dlrs: seq<Dlr>, ghost picks: seq<nat>)
      requires Valid()
      modifies this
      ensures Valid() && history == old(history) + [Requeue(key, dlrs, picks)]
      ensures pending == if dlrs == [] then old(pending)
                         else old(pending)[key := Lookup(old(pending), key) + dlrs]
    {
      if dlrs != [] {
        var existing := if key in pending then pending[key] else [];
        pending := pending[key := existing + dlrs];
      }
      Record(Requeue(key, dlrs, picks));
    }

    /** The cleanup loop over the keys of the map; `kept` is what the filter leaves of each queue. */
    static method CleanEach<T(==)>(start: map<Key, seq<T>>, kept: map<Key, seq<T>>)
      returns (m: map<Key, seq<T>>, cleaned: nat)
      requires forall k :: k in start ==> k in kept && |kept[k]| <= |start[k]| && |start[k]| > 0
      requires forall k :: k in start && |kept[k]| == |start[k]| ==> kept[k] == start[k]
      ensures forall k :: k in m ==> k in start && |m[k]| > 0
      ensures forall k :: k in start ==> kept[k] == if k in m then m[k] else []
      ensures cleaned == |Touched(start, kept, {})|
    {
      m, cleaned := start, 0;
      var todo := start.Keys;
      assert Touched(start, kept, todo) == {};
      while todo != {}
        invariant todo <= start.Keys
        invariant forall k :: k in m ==> k in start && |m[k]| > 0
        invariant forall k :: k in todo ==> k in m && m[k] == start[k]
        invariant forall k :: k in start && k !in todo ==> (k in m <==> |kept[k]| > 0)
        invariant forall k :: k in m && k !in todo ==> m[k] == kept[k]
        invariant cleaned == |Touched(start, kept, todo)|
        decreases |todo|
      {
        var k :| k in todo;
        TouchedStep(start, kept, todo, k);
        var filtered := kept[k];
        if |filtered| == 0 {
          m := m - {k};
          cleaned := cleaned + 1;
        } else if |filtered| < |m[k]| {
          m := m[k := filtered];
          cleaned := cleaned + 1;
        }
        todo := todo - {k};
      }
    }

    /** TTL cleanup; the answer counts the keys that lost at least one receipt. */
    method CleanupStaleDlrs(now: int, parse: string -> Option<int>, ttlMs: int := DLR_QUEUE_TTL_MS) returns (cleaned: nat)
      requires Valid()
      modifies this
      ensures Valid() && history == old(history) + [Cleanup(now - ttlMs, parse)]
      ensures cleaned == |set k | k in old(pending) && Lookup(pending, k) != old(pending)[k]|
    {
      hide Filtered, Contents;
      ghost var start := pending;
      var kept := map k | k in pending :: Filtered(pending[k], now - ttlMs, parse);
      pending, cleaned := CleanEach(pending, kept);
      assert Touched(start, kept, {}) == set k | k in start && Lookup(pending, k) != start[k];
      Record(Cleanup(now - ttlMs, parse));
    }
  }
}
