/**
 Where every enqueued receipt of one client ends up, over any run of queue calls.
 Receipts are named by their position in the order of enqueueing.
 */
module DlrQueueRuns {
  import opened Wrappers
  import opened Sequences
  import opened DlrQueue

  /**
   offered: every receipt enqueued, in order. queue: positions now queued.
   claims: positions in hand-out order; out: claimed and not given back.
   dropped and stale: positions lost to the cap and to the TTL.
   */
  datatype Track = Track(offered: seq<Dlr>, queue: seq<nat>, claims: seq<nat>, out: set<nat>,
                         dropped: set<nat>, stale: set<nat>)

  const NEW_TRACK := Track([], [], [], {}, {}, {})

  predicate InRange(ix: seq<nat>, n: nat) {
    forall i :: 0 <= i < |ix| ==> ix[i] < n
  }

  /** The receipts at these positions. */
  function At(offered: seq<Dlr>, ix: seq<nat>): (r: seq<Dlr>)
    requires InRange(ix, |offered|)
    ensures |r| == |ix|
    ensures forall i :: 0 <= i < |ix| ==> r[i] == offered[ix[i]]
  {
    seq(|ix|, i requires 0 <= i < |ix| => offered[ix[i]])
  }

  function FilterIx(offered: seq<Dlr>, ix: seq<nat>, cutoff: int, parse: string -> Option<int>): seq<nat>
    requires InRange(ix, |offered|)
  {
    if ix == [] then []
    else (if Keeps(offered[ix[0]], cutoff, parse) then [ix[0]] else []) + FilterIx(offered, ix[1..], cutoff, parse)
  }

  function Elements(s: seq<nat>): set<nat> {
    set x | x in s
  }

  /** A requeue gives back receipts that were claimed and not yet given back, each once. */
  ghost predicate GivesBack(t: Track, dlrs: seq<Dlr>, picks: seq<nat>) {
    && InRange(picks, |t.offered|) && dlrs == At(t.offered, picks)
    && Distinct(picks) && Elements(picks) <= t.out
  }

  ghost predicate Enabled(k: Key, t: Track, e: Event) {
    && InRange(t.queue, |t.offered|)
    && (e.Requeue? && e.key == k ==> GivesBack(t, e.dlrs, e.picks))
  }

  ghost function TrackStep(k: Key, t: Track, e: Event): Track
    requires Enabled(k, t, e)
  {
    match e
    case Enqueue(key, d) =>
      if key != k then t
      else
        var n := |t.offered|;
        if |t.queue| >= MAX_DLR_QUEUE_PER_CLIENT
        then t.(offered := t.offered + [d], queue := t.queue[1..] + [n], dropped := t.dropped + {t.queue[0]})
        else t.(offered := t.offered + [d], queue := t.queue + [n])
    case DequeueAll(key) =>
      if key != k then t
      else t.(queue := [], claims := t.claims + t.queue, out := t.out + Elements(t.queue))
    case Requeue(key, dlrs, picks) =>
      if key != k then t else t.(queue := t.queue + picks, out := t.out - Elements(picks))
    case Cleanup(cutoff, parse) =>
      var kept := FilterIx(t.offered, t.queue, cutoff, parse);
      t.(queue := kept, stale := t.stale + (Elements(t.queue) - Elements(kept)))
  }

  /** A call that is not enabled is not tracked. */
  ghost function Tracked(k: Key, events: seq<Event>): Track {
    if events == [] then NEW_TRACK
    else
      var t := Tracked(k, events[..|events| - 1]);
      if Enabled(k, t, events[|events| - 1]) then TrackStep(k, t, events[|events| - 1]) else t
  }

  /** Every requeue in the run gives back receipts claimed before. */
  ghost predicate AllGiveBack(k: Key, events: seq<Event>) {
    events != [] ==>
      AllGiveBack(k, events[..|events| - 1]) && Enabled(k, Tracked(k, events[..|events| - 1]), events[|events| - 1])
  }

  // ---- one place each ----

  function Below(n: nat): (r: set<nat>)
    ensures forall i: nat :: i in r <==> i < n
  {
    if n == 0 then {} else Below(n - 1) + {n - 1}
  }

  ghost predicate Partitioned(t: Track) {
    && InRange(t.queue, |t.offered|) && Distinct(t.queue)
    && Elements(t.queue) !! t.out !! t.dropped !! t.stale
    && Elements(t.queue) + t.out + t.dropped + t.stale == Below(|t.offered|)
  }

  lemma FilterIxCons(offered: seq<Dlr>, x: nat, rest: seq<nat>, cutoff: int, parse: string -> Option<int>)
    requires x < |offered| && InRange(rest, |offered|)
    ensures InRange([x] + rest, |offered|)
    ensures FilterIx(offered, [x] + rest, cutoff, parse)
            == if Keeps(offered[x], cutoff, parse) then [x] + FilterIx(offered, rest, cutoff, parse)
               else FilterIx(offered, rest, cutoff, parse)
  {
    assert ([x] + rest)[1..] == rest;
  }

  lemma FilteredCons(d: Dlr, rest: seq<Dlr>, cutoff: int, parse: string -> Option<int>)
    ensures Filtered([d] + rest, cutoff, parse)
            == if Keeps(d, cutoff, parse) then [d] + Filtered(rest, cutoff, parse) else Filtered(rest, cutoff, parse)
  {
    assert ([d] + rest)[1..] == rest;
  }

  lemma AtCons(offered: seq<Dlr>, x: nat, rest: seq<nat>)
    requires x < |offered| && InRange(rest, |offered|)
    ensures InRange([x] + rest, |offered|) && At(offered, [x] + rest) == [offered[x]] + At(offered, rest)
  {
  }

  lemma {:induction false} FilterIxMembers(offered: seq<Dlr>, ix: seq<nat>, cutoff: int, parse: string -> Option<int>)
    requires InRange(ix, |offered|)
    ensures var r := FilterIx(offered, ix, cutoff, parse);
            && |r| <= |ix| && InRange(r, |offered|)
            && (forall x :: x in r ==> x in ix)
            && At(offered, r) == Filtered(At(offered, ix), cutoff, parse)
  {
    if |ix| > 0 {
      var x, rest := ix[0], ix[1..];
      assert ix == [x] + rest;
      FilterIxMembers(offered, rest, cutoff, parse);
      FilterIxCons(offered, x, rest, cutoff, parse);
      FilteredCons(offered[x], At(offered, rest), cutoff, parse);
      AtCons(offered, x, rest);
      hide *;
      AtCons(offered, x, FilterIx(offered, rest, cutoff, parse));
    }
  }

  lemma OrderCons(x: nat, rest: seq<nat>)
    ensures Distinct([x] + rest) <==> Distinct(rest) && x !in rest
    ensures Increasing([x] + rest) <==> Increasing(rest) && forall y :: y in rest ==> x < y
  {
    var s := [x] + rest;
    assert forall i :: 1 <= i < |s| ==> s[i] == rest[i - 1] && s[i] in rest;
    forall i, j | 0 <= i < j < |rest|
      ensures Distinct(s) ==> rest[i] != rest[j]
      ensures Increasing(s) ==> rest[i] < rest[j]
    {
      assert s[i + 1] == rest[i] && s[j + 1] == rest[j];
    }
    forall j | 0 <= j < |rest|
      ensures Distinct(s) ==> x != rest[j]
      ensures Increasing(s) ==> x < rest[j]
    {
      assert s[0] == x && s[j + 1] == rest[j];
    }
  }

  lemma {:induction false} FilterIxOrder(offered: seq<Dlr>, ix: seq<nat>, cutoff: int, parse: string -> Option<int>)
    requires InRange(ix, |offered|)
    ensures Distinct(ix) ==> Distinct(FilterIx(offered, ix, cutoff, parse))
    ensures Increasing(ix) ==> Increasing(FilterIx(offered, ix, cutoff, parse))
  {
    if |ix| > 0 {
      var x, rest := ix[0], ix[1..];
      assert ix == [x] + rest;
      FilterIxCons(offered, x, rest, cutoff, parse);
      FilterIxOrder(offered, rest, cutoff, parse);
      FilterIxMembers(offered, rest, cutoff, parse);
      OrderCons(x, rest);
      hide *;
      OrderCons(x, FilterIx(offered, rest, cutoff, parse));
    }
  }

  lemma DropHead(q: seq<nat>)
    requires q != [] && Distinct(q)
    ensures Elements(q[1..]) == Elements(q) - {q[0]} && Distinct(q[1..])
  {
    assert q == [q[0]] + q[1..];
    assert forall i :: 0 <= i < |q[1..]| ==> q[1..][i] == q[i + 1];
    assert q[0] !in q[1..];
  }

  lemma PushNew(q: seq<nat>, n: nat)
    requires InRange(q, n) && Distinct(q)
    ensures Elements(q + [n]) == Elements(q) + {n} && Distinct(q + [n]) && InRange(q + [n], n + 1)
    ensures Below(n + 1) == Below(n) + {n} && n !in Below(n)
  {
  }

  lemma EnqueuePartitions(k: Key, t: Track, d: Dlr)
    requires Partitioned(t)
    ensures Partitioned(TrackStep(k, t, Enqueue(k, d)))
  {
    var n, q := |t.offered|, t.queue;
    if |q| >= MAX_DLR_QUEUE_PER_CLIENT {
      assert q[0] in Elements(q);
      DropHead(q);
      PushNew(q[1..], n);
    } else {
      PushNew(q, n);
    }
  }

  lemma RequeuePartitions(k: Key, t: Track, dlrs: seq<Dlr>, picks: seq<nat>)
    requires Partitioned(t) && GivesBack(t, dlrs, picks)
    ensures Partitioned(TrackStep(k, t, Requeue(k, dlrs, picks)))
  {
    assert Elements(t.queue + picks) == Elements(t.queue) + Elements(picks);
    assert forall i :: 0 <= i < |picks| ==> picks[i] in Elements(picks);
    assert forall i :: 0 <= i < |t.queue| ==> t.queue[i] in Elements(t.queue);
  }

  lemma StepPartitions(k: Key, t: Track, e: Event)
    requires Partitioned(t) && Enabled(k, t, e)
    ensures Partitioned(TrackStep(k, t, e))
  {
    match e
    case Enqueue(key, d) => if key == k { EnqueuePartitions(k, t, d); }
    case DequeueAll(key) => assert Elements([]) == {};
    case Requeue(key, dlrs, picks) => if key == k { RequeuePartitions(k, t, dlrs, picks); }
    case Cleanup(cutoff, parse) =>
      FilterIxMembers(t.offered, t.queue, cutoff, parse);
      FilterIxOrder(t.offered, t.queue, cutoff, parse);
      assert Elements(FilterIx(t.offered, t.queue, cutoff, parse)) <= Elements(t.queue);
  }

  /** Every enqueued receipt is in exactly one of queued, claimed, dropped and stale. */
  lemma {:induction false} ExactlyOnePlace(k: Key, events: seq<Event>)
    ensures Partitioned(Tracked(k, events))
    decreases |events|
  {
    if events != [] {
      var t, e := Tracked(k, events[..|events| - 1]), events[|events| - 1];
      ExactlyOnePlace(k, events[..|events| - 1]);
      if Enabled(k, t, e) {
        StepPartitions(k, t, e);
      }
    }
  }

  /** The tracked positions are those of the receipts really queued. */
  lemma {:induction false} QueueIsContents(k: Key, events: seq<Event>)
    requires AllGiveBack(k, events)
    ensures Partitioned(Tracked(k, events))
    ensures Contents(k, events) == At(Tracked(k, events).offered, Tracked(k, events).queue)
    decreases |events|
  {
    ExactlyOnePlace(k, events);
    if events != [] {
      var t, e := Tracked(k, events[..|events| - 1]), events[|events| - 1];
      QueueIsContents(k, events[..|events| - 1]);
      StepContents(k, t, e);
    }
  }

  lemma StepContents(k: Key, t: Track, e: Event)
    requires Partitioned(t) && Enabled(k, t, e) && Partitioned(TrackStep(k, t, e))
    ensures var u := TrackStep(k, t, e);
            At(u.offered, u.queue) == Step(k, At(t.offered, t.queue), e)
  {
    if e.Cleanup? {
      FilterIxMembers(t.offered, t.queue, e.cutoff, e.parse);
    }
  }

  // ---- increasing positions ----

  ghost predicate Increasing(s: seq<nat>) {
    forall i, j :: 0 <= i < j < |s| ==> s[i] < s[j]
  }

  /** Positions below n that were not lost, in order. */
  function Kept(n: nat, lost: set<nat>): seq<nat> {
    if n == 0 then [] else Kept(n - 1, lost) + if n - 1 in lost then [] else [n - 1]
  }

  lemma LastIsLargest(s: seq<nat>, n: nat)
    requires Increasing(s) && n > 0 && n - 1 in s && forall x :: x in s ==> x < n
    ensures s == s[..|s| - 1] + [n - 1] && n - 1 !in s[..|s| - 1]
  {
    var i :| 0 <= i < |s| && s[i] == n - 1;
    assert s[|s| - 1] in s;
    assert i == |s| - 1;
  }

  lemma NoElements(s: seq<nat>)
    ensures Elements(s) == {} ==> s == []
  {
    if s != [] {
      assert s[0] in Elements(s);
    }
  }

  lemma {:induction false} IncreasingIsKept(s: seq<nat>, n: nat, lost: set<nat>)
    requires Increasing(s) && Elements(s) == Below(n) - lost
    ensures s == Kept(n, lost)
  {
    if n == 0 {
      NoElements(s);
    } else if n - 1 in lost {
      assert Elements(s) == Below(n - 1) - lost;
      IncreasingIsKept(s, n - 1, lost);
    } else {
      DropLargest(s, n, lost);
      IncreasingIsKept(s[..|s| - 1], n - 1, lost);
    }
  }

  lemma DropLargest(s: seq<nat>, n: nat, lost: set<nat>)
    requires Increasing(s) && n > 0 && n - 1 !in lost && Elements(s) == Below(n) - lost
    ensures |s| > 0 && s == s[..|s| - 1] + [n - 1]
    ensures Increasing(s[..|s| - 1]) && Elements(s[..|s| - 1]) == Below(n - 1) - lost
  {
    assert n - 1 in Elements(s);
    assert forall x :: x in s ==> x in Elements(s);
    LastIsLargest(s, n);
    var p := s[..|s| - 1];
    assert Elements(s) == Elements(p) + {n - 1};
    assert Below(n) == Below(n - 1) + {n - 1};
  }

  lemma IncreasingParts(c: seq<nat>, q: seq<nat>)
    ensures Increasing(c + q) <==>
            Increasing(c) && Increasing(q) && forall i, j :: 0 <= i < |c| && 0 <= j < |q| ==> c[i] < q[j]
  {
    assert forall i :: 0 <= i < |c| ==> (c + q)[i] == c[i];
    assert forall i :: 0 <= i < |q| ==> (c + q)[|c| + i] == q[i];
    if Increasing(c + q) {
      forall i, j | 0 <= i < j < |q| ensures q[i] < q[j] {
        assert (c + q)[|c| + i] < (c + q)[|c| + j];
      }
      forall i, j | 0 <= i < |c| && 0 <= j < |q| ensures c[i] < q[j] {
        assert (c + q)[i] < (c + q)[|c| + j];
      }
    }
  }

  lemma SubOrder(c: seq<nat>, q: seq<nat>, r: seq<nat>)
    requires Increasing(c + q) && Increasing(r) && forall x :: x in r ==> x in q
    ensures Increasing(c + r)
  {
    IncreasingParts(c, q);
    IncreasingParts(c, r);
    forall i, j | 0 <= i < |c| && 0 <= j < |r| ensures c[i] < r[j] {
      assert r[j] in q;
    }
  }
}
