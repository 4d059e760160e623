/**
 In which order receipts leave: the receipts claimed and not given back, followed
 by the queue, are in enqueue order exactly as long as every requeue gives back
 the newest claimed receipts, in order, to an empty queue.
 */
module DlrQueueOrder {
  import opened Wrappers
  import opened Sequences
  import opened DlrQueue
  import opened DlrQueueRuns

  function Without(s: seq<nat>, gone: set<nat>): seq<nat> {
    if s == [] then [] else (if s[0] in gone then [] else [s[0]]) + Without(s[1..], gone)
  }

  /** Positions claimed and not given back, in the order of their last claim. */
  ghost function Outstanding(k: Key, events: seq<Event>): seq<nat> {
    if events == [] then []
    else
      var before, e := events[..|events| - 1], events[|events| - 1];
      StillOut(k, Tracked(k, before), Outstanding(k, before), e)
  }

  ghost function StillOut(k: Key, t: Track, o: seq<nat>, e: Event): seq<nat> {
    if !Enabled(k, t, e) then o
    else if e.DequeueAll? && e.key == k then o + t.queue
    else if e.Requeue? && e.key == k then Without(o, Elements(e.picks))
    else o
  }

  lemma {:induction false} WithoutMembers(s: seq<nat>, gone: set<nat>)
    ensures Elements(Without(s, gone)) == Elements(s) - gone
    ensures gone == {} ==> Without(s, gone) == s
  {
    if |s| > 0 {
      var x, rest := s[0], s[1..];
      assert s == [x] + rest;
      WithoutCons(x, rest, gone);
      WithoutMembers(rest, gone);
      hide Without;
      ElementsCons(x, rest);
      ElementsCons(x, Without(rest, gone));
    }
  }

  lemma ElementsCons(x: nat, rest: seq<nat>)
    ensures Elements([x] + rest) == {x} + Elements(rest)
  {
  }

  lemma {:induction false} WithoutOrder(s: seq<nat>, gone: set<nat>)
    requires Increasing(s)
    ensures Increasing(Without(s, gone))
  {
    if |s| > 0 {
      var x, rest := s[0], s[1..];
      assert s == [x] + rest;
      OrderCons(x, rest);
      WithoutOrder(rest, gone);
      WithoutMembers(rest, gone);
      hide Without;
      WithoutCons(x, rest, gone);
      OrderCons(x, Without(rest, gone));
      assert forall y :: y in Without(rest, gone) ==> y in Elements(Without(rest, gone));
    }
  }

  lemma WithoutCons(x: nat, rest: seq<nat>, gone: set<nat>)
    ensures Without([x] + rest, gone) == if x in gone then Without(rest, gone) else [x] + Without(rest, gone)
  {
    assert ([x] + rest)[1..] == rest;
  }

  // ---- one requeue ----

  function Above(s: seq<nat>): (n: nat)
    ensures InRange(s, n)
  {
    if s == [] then 0
    else var n := Above(s[..|s| - 1]); if s[|s| - 1] < n then n else s[|s| - 1] + 1
  }

  /** Increasing sequences of the same positions are the same. */
  lemma SameIncreasing(a: seq<nat>, b: seq<nat>)
    requires Increasing(a) && Increasing(b) && Elements(a) == Elements(b)
    ensures a == b
  {
    var n := Above(a);
    var lost := Below(n) - Elements(a);
    assert forall i :: 0 <= i < |a| ==> a[i] in Below(n);
    assert Elements(a) == Below(n) - lost;
    IncreasingIsKept(a, n, lost);
    IncreasingIsKept(b, n, lost);
  }

  /** The given-back receipts are the newest claimed ones, in order. */
  ghost predicate IsNewest(o: seq<nat>, picks: seq<nat>) {
    o == Without(o, Elements(picks)) + picks
  }

  lemma NewestIff(o: seq<nat>, picks: seq<nat>)
    requires Increasing(o) && Elements(picks) <= Elements(o)
    ensures Increasing(Without(o, Elements(picks)) + picks) <==> IsNewest(o, picks)
  {
    var w := Without(o, Elements(picks));
    WithoutMembers(o, Elements(picks));
    assert Elements(w + picks) == Elements(w) + Elements(picks);
    if Increasing(w + picks) {
      SameIncreasing(o, w + picks);
    }
  }

  lemma NotBehind(w: seq<nat>, q: seq<nat>, picks: seq<nat>, o: seq<nat>)
    requires Increasing(o + q) && Elements(picks) <= Elements(o) && |q| > 0 && |picks| > 0
    ensures !Increasing(w + (q + picks))
  {
    assert picks[0] in Elements(picks);
    assert picks[0] in o;
    IncreasingParts(o, q);
    assert picks[0] < q[0];
    var s := w + (q + picks);
    assert s[|w|] == q[0] && s[|w| + |q|] == picks[0];
  }

  lemma GivenBackNothing(o: seq<nat>, q: seq<nat>, picks: seq<nat>)
    requires |picks| == 0
    ensures var w := Without(o, Elements(picks));
            w == o && w + (q + picks) == o + q && w + (picks + q) == o + q && IsNewest(o, picks)
  {
    assert Elements(picks) == {};
    WithoutMembers(o, {});
    assert o + picks == o;
  }

  /**
   Put in front of the queue, as the comment has it, given-back receipts keep the
   order if and only if they are the newest claimed ones, in order.
   */
  lemma PrependOrderIff(o: seq<nat>, q: seq<nat>, picks: seq<nat>)
    requires Increasing(o + q) && Elements(picks) <= Elements(o)
    ensures Increasing(Without(o, Elements(picks)) + (picks + q)) <==> IsNewest(o, picks)
  {
    hide Without, Increasing, Elements;
    var w := Without(o, Elements(picks));
    IncreasingParts(o, q);
    NewestIff(o, picks);
    assert w + (picks + q) == (w + picks) + q;
    IncreasingParts(w + picks, q);
  }

  /**
   Appended, as the code does, they keep it if and only if there are none, or
   they are the newest claimed ones, in order, and the queue is empty.
   */
  lemma RequeueOrderIff(o: seq<nat>, q: seq<nat>, picks: seq<nat>)
    requires Increasing(o + q) && Elements(picks) <= Elements(o)
    ensures Increasing(Without(o, Elements(picks)) + (q + picks))
            <==> |picks| == 0 || (|q| == 0 && IsNewest(o, picks))
  {
    hide Without, Increasing, Elements, IsNewest;
    var w := Without(o, Elements(picks));
    if |picks| == 0 {
      GivenBackNothing(o, q, picks);
    } else if |q| > 0 {
      NotBehind(w, q, picks, o);
    } else {
      assert q + picks == picks && o + q == o;
      NewestIff(o, picks);
    }
  }

  // ---- whole runs ----

  /** Every requeue gives back claimed receipts, and those are the newest, in order, onto an empty queue. */
  ghost predicate Orderly(k: Key, events: seq<Event>) {
    events != [] ==>
      var before, e := events[..|events| - 1], events[|events| - 1];
      && Orderly(k, before)
      && Enabled(k, Tracked(k, before), e)
      && (e.Requeue? && e.key == k && |e.picks| > 0 ==>
            |Tracked(k, before).queue| == 0 && IsNewest(Outstanding(k, before), e.picks))
  }

  /** What is out, in claim order, followed by the queue, in enqueue order. */
  ghost predicate Ordered(t: Track, o: seq<nat>) {
    Increasing(o + t.queue) && t.out == Elements(o)
  }

  lemma StepOrdered(k: Key, t: Track, o: seq<nat>, e: Event)
    requires Partitioned(t) && Enabled(k, t, e) && Ordered(t, o) && !(e.Requeue? && e.key == k)
    ensures Ordered(TrackStep(k, t, e), StillOut(k, t, o, e))
  {
    var q, n := t.queue, |t.offered|;
    match e
    case Enqueue(key, d) =>
      if key == k {
        var r := if |q| >= MAX_DLR_QUEUE_PER_CLIENT then q[1..] else q;
        IncreasingParts(o, q);
        assert Increasing(r);
        SubOrder(o, q, r);
        assert forall i :: 0 <= i < |o| ==> o[i] in Elements(o);
        IncreasingParts(o + r, [n]);
        assert o + (r + [n]) == o + r + [n];
      }
    case DequeueAll(key) =>
      assert (o + q) + [] == o + q;
      assert Elements(o + q) == Elements(o) + Elements(q);
    case Cleanup(cutoff, parse) =>
      FilterIxMembers(t.offered, q, cutoff, parse);
      FilterIxOrder(t.offered, q, cutoff, parse);
      IncreasingParts(o, q);
      SubOrder(o, q, FilterIx(t.offered, q, cutoff, parse));
    case Requeue(_, _, _) =>
  }

  lemma RequeueOrdered(k: Key, t: Track, o: seq<nat>, e: Event)
    requires Enabled(k, t, e) && Ordered(t, o) && e.Requeue? && e.key == k
    ensures Ordered(TrackStep(k, t, e), StillOut(k, t, o, e))
            <==> |e.picks| == 0 || (|t.queue| == 0 && IsNewest(o, e.picks))
  {
    RequeueOrderIff(o, t.queue, e.picks);
    WithoutMembers(o, Elements(e.picks));
  }

  /** After every orderly run, what is out followed by the queue is in enqueue order. */
  lemma {:induction false} RunOrdered(k: Key, events: seq<Event>)
    requires Orderly(k, events)
    ensures Ordered(Tracked(k, events), Outstanding(k, events)) && AllGiveBack(k, events)
    decreases |events|
  {
    if events != [] {
      hide Ordered, Partitioned, Enabled, StillOut, TrackStep, IsNewest;
      var before, e := events[..|events| - 1], events[|events| - 1];
      var t, o := Tracked(k, before), Outstanding(k, before);
      ExactlyOnePlace(k, before);
      RunOrdered(k, before);
      if e.Requeue? && e.key == k {
        RequeueOrdered(k, t, o, e);
      } else {
        StepOrdered(k, t, o, e);
      }
    } else {
      assert Tracked(k, []) == NEW_TRACK && Outstanding(k, []) == [];
    }
  }

  /** After an orderly run, a requeue keeps the order if and only if it is orderly. */
  lemma GivingBackKeepsOrderIff(k: Key, events: seq<Event>, dlrs: seq<Dlr>, picks: seq<nat>)
    requires Orderly(k, events) && Enabled(k, Tracked(k, events), Requeue(k, dlrs, picks))
    ensures var all := events + [Requeue(k, dlrs, picks)];
            Increasing(Outstanding(k, all) + Tracked(k, all).queue) <==> Orderly(k, all)
  {
    var e := Requeue(k, dlrs, picks);
    var all := events + [e];
    assert all[..|all| - 1] == events && all[|all| - 1] == e;
    RunOrdered(k, events);
    RequeueOrderIff(Outstanding(k, events), Tracked(k, events).queue, picks);
  }

  /** After every orderly run, what is out followed by the queue is the enqueue order minus the dropped and stale. */
  lemma OrderlyRunsKeepOrder(k: Key, events: seq<Event>)
    requires Orderly(k, events)
    ensures var t := Tracked(k, events);
            Outstanding(k, events) + t.queue == Kept(|t.offered|, t.dropped + t.stale)
  {
    var t, o := Tracked(k, events), Outstanding(k, events);
    RunOrdered(k, events);
    ExactlyOnePlace(k, events);
    var s, lost := o + t.queue, t.dropped + t.stale;
    assert Elements(s) == Elements(o) + Elements(t.queue);
    assert Elements(s) == Below(|t.offered|) - lost;
    IncreasingIsKept(s, |t.offered|, lost);
  }

  // ---- without requeue ----

  lemma {:induction false} NoRequeues(k: Key, events: seq<Event>)
    requires forall i :: 0 <= i < |events| ==> !events[i].Requeue?
    ensures Orderly(k, events) && Outstanding(k, events) == Tracked(k, events).claims
    ensures |Tracked(k, events).queue| <= MAX_DLR_QUEUE_PER_CLIENT
    decreases |events|
  {
    if events != [] {
      hide IsNewest;
      var before, e := events[..|events| - 1], events[|events| - 1];
      var t := Tracked(k, before);
      NoRequeues(k, before);
      ExactlyOnePlace(k, before);
      if e.Cleanup? {
        FilterIxMembers(t.offered, t.queue, e.cutoff, e.parse);
      }
    }
  }

  /**
   Without requeue the depth stays within the cap, and the claims followed by the
   queue are the enqueue order with the dropped and the stale taken out.
   */
  lemma ClaimsFollowEnqueueOrder(k: Key, events: seq<Event>)
    requires forall i :: 0 <= i < |events| ==> !events[i].Requeue?
    ensures |Contents(k, events)| <= MAX_DLR_QUEUE_PER_CLIENT
    ensures var t := Tracked(k, events);
            t.claims + t.queue == Kept(|t.offered|, t.dropped + t.stale)
  {
    NoRequeues(k, events);
    RunOrdered(k, events);
    QueueIsContents(k, events);
    OrderlyRunsKeepOrder(k, events);
  }
}
