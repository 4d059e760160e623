/** The per-IP sliding-window limiter, against the full history of accepted requests. */
module RateLimiter {
  const RATE_MAX := 300
  const RATE_WINDOW_MS := 60_000
  const SWEEP_SIZE := 10_000

  datatype Request = Request(ip: string, now: int)

  function Recent(hits: seq<int>, now: int): (r: seq<int>)
    ensures |r| <= |hits|
  {
    if hits == [] then []
    else (if now - hits[0] < RATE_WINDOW_MS then [hits[0]] else []) + Recent(hits[1..], now)
  }

  function Get(hits: map<string, seq<int>>, ip: string): seq<int> {
    if ip in hits then hits[ip] else []
  }

  /** The sweep drops every IP without a recent hit. */
  function Swept(hits: map<string, seq<int>>, now: int): map<string, seq<int>> {
    map ip | ip in hits && Recent(hits[ip], now) != [] :: hits[ip]
  }

  predicate Refuses(hits: map<string, seq<int>>, r: Request) {
    |Recent(Get(hits, r.ip), r.now)| >= RATE_MAX
  }

  function After(hits: map<string, seq<int>>, r: Request): map<string, seq<int>> {
    var recent := Recent(Get(hits, r.ip), r.now);
    if |recent| >= RATE_MAX then hits[r.ip := recent]
    else
      var h := hits[r.ip := recent + [r.now]];
      if |h| > SWEEP_SIZE then Swept(h, r.now) else h
  }

  /** The limiter's map after a run of requests. */
  function State(run: seq<Request>): map<string, seq<int>> {
    if run == [] then map[] else After(State(run[..|run| - 1]), run[|run| - 1])
  }

  class Limiter {
    var hits: map<string, seq<int>>

    constructor ()
      ensures hits == State([])
    {
      hits := map[];
    }

    method Sweep(now: int)
      modifies this
      ensures hits == Swept(old(hits), now)
    {
      ghost var start := hits;
      var todo := hits.Keys;
      while todo != {}
        invariant todo <= hits.Keys <= start.Keys
        invariant forall k :: k in hits ==> hits[k] == start[k]
        invariant forall k :: k in start && k !in todo ==> (k in hits <==> |Recent(start[k], now)| > 0)
        decreases |todo|
      {
        var k :| k in todo;
        if |Recent(hits[k], now)| == 0 {
          hits := hits - {k};
        }
        todo := todo - {k};
      }
    }

    method RateLimited(ip: string, now: int) returns (refused: bool)
      modifies this
      ensures hits == After(old(hits), Request(ip, now))
      ensures refused <==> Refuses(old(hits), Request(ip, now))
    {
      var recent := Recent(if ip in hits then hits[ip] else [], now);
      if |recent| >= RATE_MAX {
        hits := hits[ip := recent];
        return true;
      }
      hits := hits[ip := recent + [now]];
      if |hits| > SWEEP_SIZE {
        Sweep(now);
      }
      refused := false;
    }
  }

  // ---- the unpruned history ----

  /** The times of every accepted request of this IP, never pruned. */
  function Accepted(run: seq<Request>, ip: string): seq<int> {
    if run == [] then []
    else
      var before, r := run[..|run| - 1], run[|run| - 1];
      Accepted(before, ip) + if r.ip == ip && !Refuses(State(before), r) then [r.now] else []
  }

  /** A clock that does not go back. */
  ghost predicate Monotone(run: seq<Request>) {
    forall i, j :: 0 <= i <= j < |run| ==> run[i].now <= run[j].now
  }

  lemma {:induction false} RecentLater(hits: seq<int>, t: int, now: int)
    requires t <= now
    ensures Recent(Recent(hits, t), now) == Recent(hits, now)
  {
    if hits != [] {
      RecentLater(hits[1..], t, now);
      var rest := Recent(hits[1..], t);
      if t - hits[0] < RATE_WINDOW_MS {
        assert Recent(hits, t) == [hits[0]] + rest;
        assert ([hits[0]] + rest)[1..] == rest;
      } else {
        assert Recent(hits, t) == rest;
      }
    }
  }

  lemma {:induction false} RecentAppend(hits: seq<int>, t: int, now: int)
    ensures Recent(hits + [t], now) == Recent(hits, now) + if now - t < RATE_WINDOW_MS then [t] else []
  {
    if hits == [] {
      assert hits + [t] == [t];
      assert [t][1..] == [];
    } else {
      assert (hits + [t])[1..] == hits[1..] + [t];
      RecentAppend(hits[1..], t, now);
    }
  }

  /** Pruned and full hits agree on all that is recent at time t, hence ever after. */
  ghost predicate Agree(pruned: seq<int>, full: seq<int>, t: int) {
    Recent(pruned, t) == Recent(full, t)
  }

  lemma AgreeLater(pruned: seq<int>, full: seq<int>, t: int, now: int)
    requires Agree(pruned, full, t) && t <= now
    ensures Agree(pruned, full, now)
  {
    RecentLater(pruned, t, now);
    RecentLater(full, t, now);
  }

  lemma StepAgrees(hits: map<string, seq<int>>, r: Request, ip: string, full: seq<int>)
    requires Agree(Get(hits, ip), full, r.now)
    ensures Agree(Get(After(hits, r), ip), full + if r.ip == ip && !Refuses(hits, r) then [r.now] else [], r.now)
  {
    hide Recent;
    var own, recent := Get(hits, ip), Recent(Get(hits, r.ip), r.now);
    RecentLater(own, r.now, r.now);
    RecentAppend(recent, r.now, r.now);
    RecentAppend(full, r.now, r.now);
    assert full + [] == full;
    SweepAgrees(hits[r.ip := recent + [r.now]], r.now, ip);
  }

  lemma SweepAgrees(hits: map<string, seq<int>>, now: int, ip: string)
    ensures Agree(Get(Swept(hits, now), ip), Get(hits, ip), now)
  {
    assert Recent([], now) == [];
  }

  lemma {:induction false} RunAgrees(run: seq<Request>, ip: string, now: int)
    requires Monotone(run) && (run != [] ==> run[|run| - 1].now <= now)
    ensures Agree(Get(State(run), ip), Accepted(run, ip), now)
    decreases |run|
  {
    if run != [] {
      var before, r := run[..|run| - 1], run[|run| - 1];
      RunAgrees(before, ip, r.now);
      StepAgrees(State(before), r, ip, Accepted(before, ip));
      AgreeLater(Get(State(run), ip), Accepted(run, ip), r.now, now);
    }
  }

  // ---- windows of the full history ----

  /** Accepted hits at times a <= t < a + RATE_WINDOW_MS. */
  function InWindow(hits: seq<int>, a: int): nat {
    if hits == [] then 0
    else InWindow(hits[..|hits| - 1], a) + if a <= hits[|hits| - 1] < a + RATE_WINDOW_MS then 1 else 0
  }

  /** What is recent now covers every window that now is in; without later hits, it is the window that ends now. */
  lemma {:induction false} WindowIsRecent(hits: seq<int>, a: int, now: int)
    requires now < a + RATE_WINDOW_MS
    ensures InWindow(hits, a) <= |Recent(hits, now)|
    ensures a == now + 1 - RATE_WINDOW_MS && (forall i :: 0 <= i < |hits| ==> hits[i] <= now) ==>
              InWindow(hits, a) == |Recent(hits, now)|
    decreases |hits|
  {
    if |hits| > 0 {
      hide Recent;
      var front, t := hits[..|hits| - 1], hits[|hits| - 1];
      WindowIsRecent(front, a, now);
      RecentAppend(front, t, now);
      assert hits == front + [t];
    }
  }

  lemma {:induction false} AcceptedBefore(run: seq<Request>, ip: string, now: int)
    requires Monotone(run) && (run != [] ==> run[|run| - 1].now <= now)
    ensures forall i :: 0 <= i < |Accepted(run, ip)| ==> Accepted(run, ip)[i] <= now
    decreases |run|
  {
    if run != [] {
      AcceptedBefore(run[..|run| - 1], ip, now);
    }
  }

  lemma MonotonePrefix(run: seq<Request>, r: Request)
    requires Monotone(run + [r])
    ensures Monotone(run) && (run != [] ==> run[|run| - 1].now <= r.now)
  {
    assert forall i :: 0 <= i < |run| ==> (run + [r])[i] == run[i];
    assert (run + [r])[|run|] == r;
  }

  // ---- main results ----

  /**
   A request is refused exactly when the full, unpruned history holds RATE_MAX
   accepted hits in the RATE_WINDOW_MS up to now: neither filtering nor the
   sweep changes a decision.
   */
  lemma DecisionIsExact(run: seq<Request>, r: Request)
    requires Monotone(run + [r])
    ensures Refuses(State(run), r) <==> InWindow(Accepted(run, r.ip), r.now + 1 - RATE_WINDOW_MS) >= RATE_MAX
  {
    hide Recent, State, Accepted, InWindow;
    MonotonePrefix(run, r);
    RunAgrees(run, r.ip, r.now);
    AcceptedBefore(run, r.ip, r.now);
    WindowIsRecent(Accepted(run, r.ip), r.now + 1 - RATE_WINDOW_MS, r.now);
  }

  /** An accepted request finds room in each window it falls in. */
  lemma AcceptKeepsBound(before: seq<Request>, r: Request, a: int)
    requires Monotone(before + [r]) && !Refuses(State(before), r)
    requires InWindow(Accepted(before, r.ip), a) <= RATE_MAX
    ensures InWindow(Accepted(before, r.ip) + [r.now], a) <= RATE_MAX
  {
    hide Recent, State, Accepted;
    var full := Accepted(before, r.ip);
    assert (full + [r.now])[..|full|] == full;
    if a <= r.now < a + RATE_WINDOW_MS {
      MonotonePrefix(before, r);
      RunAgrees(before, r.ip, r.now);
      WindowIsRecent(full, a, r.now);
    }
  }

  /** In every 60-second window of every run, at most RATE_MAX requests of one IP are accepted. */
  lemma {:induction false} WindowBound(run: seq<Request>, ip: string, a: int)
    requires Monotone(run)
    ensures InWindow(Accepted(run, ip), a) <= RATE_MAX
    decreases |run|
  {
    if run != [] {
      hide InWindow, State, Refuses;
      var before, r := run[..|run| - 1], run[|run| - 1];
      WindowBound(before, ip, a);
      assert run == before + [r];
      if r.ip == ip && !Refuses(State(before), r) {
        AcceptKeepsBound(before, r, a);
      } else {
        assert Accepted(run, ip) == Accepted(before, ip) + [] == Accepted(before, ip);
      }
    } else {
      assert InWindow([], a) == 0;
    }
  }
}
