/** The token-bucket pacer of the load generator, over exact reals. */
module TokenBucket {
  import opened Wrappers

  const PACE_MS := 1000.0

  datatype State = State(tokens: real, last: int, sent: int)

  function Credit(tps: int, elapsed: int): real {
    elapsed as real / PACE_MS * tps as real
  }

  function MinReal(a: real, b: real): real { if a <= b then a else b }

  function Refilled(s: State, tps: int, t: int): real {
    MinReal(tps as real, s.tokens + Credit(tps, t - s.last))
  }

  /** Whole tokens that can be spent while fewer than total are sent. */
  function Fired(tokens: real, room: int): int {
    if tokens < 1.0 || room <= 0 then 0 else Min(tokens.Floor, room)
  }

  function Ticked(s: State, tps: int, total: int, t: int): State {
    var tokens := Refilled(s, tps, t);
    var n := Fired(tokens, total - s.sent);
    State(tokens - n as real, t, s.sent + n)
  }

  class Pacer {
    const tps: int
    const total: int
    var tokens: real
    var last: int
    var sent: int
    var submitted: seq<int>
    var ok: int
    var failed: int

    /** The messages submitted carry the numbers 1, 2, 3, ... in order. */
    ghost predicate Valid()
      reads this
    {
      sent == |submitted| && forall i :: 0 <= i < |submitted| ==> submitted[i] == i + 1
    }

    constructor (tps: int, total: int, now: int)
      ensures Valid() && this.tps == tps && this.total == total
      ensures tokens == tps as real && last == now && sent == 0 && ok == 0 && failed == 0
    {
      this.tps := tps;
      this.total := total;
      tokens := tps as real;
      last := now;
      sent, ok, failed := 0, 0, 0;
      submitted := [];
    }

    method SubmitOne()
      requires Valid()
      modifies this`sent, this`submitted
      ensures Valid() && sent == old(sent) + 1 && old(submitted) < submitted
    {
      sent := sent + 1;
      submitted := submitted + [sent];
    }

    /** The callback of a submitted message. */
    method OnResponse(success: bool)
      requires Valid()
      modifies this`ok, this`failed
      ensures Valid()
      ensures ok == old(ok) + (if success then 1 else 0) && failed == old(failed) + (if success then 0 else 1)
    {
      if success {
        ok := ok + 1;
      } else {
        failed := failed + 1;
      }
    }

    method Tick(t: int) returns (fired: int, finished: bool)
      requires Valid()
      modifies this`tokens, this`last, this`sent, this`submitted
      ensures Valid() && old(submitted) <= submitted
      ensures State(tokens, last, sent) == Ticked(old(State(tokens, last, sent)), tps, total, t)
      ensures sent == old(sent) + fired
      ensures finished <==> sent >= total && ok + failed >= total
    {
      tokens := MinReal(tps as real, tokens + Credit(tps, t - last));
      last := t;
      fired := 0;
      ghost var start, before := tokens, sent;
      while tokens >= 1.0 && sent < total
        invariant Valid() && old(submitted) <= submitted
        invariant tokens == start - fired as real && sent == before + fired && last == t
        invariant fired >= 0 && (fired > 0 ==> tokens >= 0.0 && sent <= total)
        decreases total - sent
      {
        tokens := tokens - 1.0;
        SubmitOne();
        fired := fired + 1;
        if sent >= total {
          break;
        }
      }
      SpentAll(start, fired, total - before);
      finished := sent >= total && ok + failed >= total;
    }
  }

  /** Spending one token at a time, until below one or out of messages, spends Fired tokens. */
  lemma SpentAll(start: real, fired: int, room: int)
    requires fired >= 0 && (fired > 0 ==> start - fired as real >= 0.0 && fired <= room)
    requires start - fired as real < 1.0 || fired >= room
    ensures fired == Fired(start, room)
  {
  }

  // ---- runs ----

  /** After these ticks, from a bucket filled at t0. */
  function Run(tps: int, total: int, t0: int, ticks: seq<int>): State {
    if ticks == [] then State(tps as real, t0, 0)
    else Ticked(Run(tps, total, t0, ticks[..|ticks| - 1]), tps, total, ticks[|ticks| - 1])
  }

  ghost predicate Monotone(t0: int, ticks: seq<int>) {
    && (ticks != [] ==> t0 <= ticks[0])
    && forall i :: 0 < i < |ticks| ==> ticks[i - 1] <= ticks[i]
  }

  lemma CreditAdds(tps: int, a: int, b: int)
    ensures Credit(tps, a + b) == Credit(tps, a) + Credit(tps, b)
    ensures a >= 0 && tps >= 0 ==> Credit(tps, a) >= 0.0
  {
    var x, y, r := a as real / PACE_MS, b as real / PACE_MS, tps as real;
    assert (a + b) as real / PACE_MS == x + y;
    assert (x + y) * r == x * r + y * r;
    if a >= 0 && tps >= 0 {
      assert x >= 0.0 && r >= 0.0;
      assert x * r >= 0.0;
    }
  }

  lemma {:induction false} RunBasics(tps: int, total: int, t0: int, ticks: seq<int>)
    requires tps >= 0 && Monotone(t0, ticks)
    ensures var s := Run(tps, total, t0, ticks);
            s.tokens >= 0.0 && s.sent >= 0 && s.last == if ticks == [] then t0 else ticks[|ticks| - 1]
    decreases |ticks|
  {
    if ticks != [] {
      var before, t := ticks[..|ticks| - 1], ticks[|ticks| - 1];
      RunBasics(tps, total, t0, before);
      var s := Run(tps, total, t0, before);
      CreditAdds(tps, t - s.last, 0);
    }
  }

  function SentAfter(tps: int, total: int, t0: int, ticks: seq<int>, n: nat): int
    requires n <= |ticks|
  {
    Run(tps, total, t0, ticks[..n]).sent
  }

  /** Sends plus tokens left, from tick i on, never exceed a full bucket plus the credit since tick i. */
  lemma {:induction false} SpendBound(tps: int, total: int, t0: int, ticks: seq<int>, i: nat, j: nat)
    requires tps >= 0 && Monotone(t0, ticks) && i <= j < |ticks|
    ensures Run(tps, total, t0, ticks[..j + 1]).sent as real - SentAfter(tps, total, t0, ticks, i) as real
            + Run(tps, total, t0, ticks[..j + 1]).tokens <= tps as real + Credit(tps, ticks[j] - ticks[i])
    decreases j - i
  {
    var s := Run(tps, total, t0, ticks[..j]);
    assert ticks[..j + 1][..j] == ticks[..j];
    RunBasics(tps, total, t0, ticks[..j]);
    if j == i {
      CreditAdds(tps, 0, 0);
    } else {
      SpendBound(tps, total, t0, ticks, i, j - 1);
      assert ticks[..j - 1 + 1] == ticks[..j];
      CreditAdds(tps, ticks[j - 1] - ticks[i], ticks[j] - ticks[j - 1]);
    }
  }

  /** Sends in ticks i..j never exceed tps + tps * (tj - ti) / 1000. */
  lemma RateBound(tps: int, total: int, t0: int, ticks: seq<int>, i: nat, j: nat)
    requires tps >= 0 && Monotone(t0, ticks) && i <= j < |ticks|
    ensures (SentAfter(tps, total, t0, ticks, j + 1) - SentAfter(tps, total, t0, ticks, i)) as real
            <= tps as real + Credit(tps, ticks[j] - ticks[i])
  {
    SpendBound(tps, total, t0, ticks, i, j);
    RunBasics(tps, total, t0, ticks[..j + 1]);
  }

  /** No gap between ticks earns more than the room a spent bucket has. */
  ghost predicate SmallGaps(tps: int, ticks: seq<int>) {
    forall i :: 0 < i < |ticks| ==> Credit(tps, ticks[i] - ticks[i - 1]) <= (tps - 1) as real
  }

  /** Everything earned by a tick, counted from the first one. */
  function Earned(tps: int, ticks: seq<int>): real
    requires ticks != []
  {
    tps as real + Credit(tps, ticks[|ticks| - 1] - ticks[0])
  }

  /** Below the total, sends and tokens together are all that was earned; at the total, enough was earned. */
  predicate Keeps(s: State, total: int, earned: real) {
    if s.sent < total then s.sent as real + s.tokens == earned && 0.0 <= s.tokens < 1.0
    else s.sent == total && earned >= total as real
  }

  lemma TickKeeps(s: State, tps: int, total: int, t: int, earned: real)
    requires Keeps(s, total, earned)
    requires 0.0 <= Credit(tps, t - s.last) <= (tps - 1) as real
    ensures Keeps(Ticked(s, tps, total, t), total, earned + Credit(tps, t - s.last))
  {
    hide Credit;
    if s.sent < total {
      assert Refilled(s, tps, t) == s.tokens + Credit(tps, t - s.last);
    }
  }

  /** The first tick finds the bucket full, whenever it comes. */
  lemma FirstTick(tps: int, total: int, t0: int, t: int)
    requires tps >= 0 && total >= 0 && Credit(tps, t - t0) >= 0.0
    ensures Keeps(Ticked(State(tps as real, t0, 0), tps, total, t), total, tps as real)
  {
    hide Credit;
    assert Refilled(State(tps as real, t0, 0), tps, t) == tps as real;
  }

  lemma {:induction false} NothingLost(tps: int, total: int, t0: int, ticks: seq<int>)
    requires tps >= 0 && total >= 0 && ticks != [] && Monotone(t0, ticks) && SmallGaps(tps, ticks)
    ensures Keeps(Run(tps, total, t0, ticks), total, Earned(tps, ticks))
    decreases |ticks|
  {
    hide Credit, Keeps, Ticked;
    var before, t := ticks[..|ticks| - 1], ticks[|ticks| - 1];
    var s := Run(tps, total, t0, before);
    RunBasics(tps, total, t0, before);
    if |ticks| == 1 {
      CreditAdds(tps, t - t0, 0);
      CreditAdds(tps, 0, 0);
      assert s == State(tps as real, t0, 0);
      FirstTick(tps, total, t0, t);
    } else {
      var gap := t - ticks[|ticks| - 2];
      NothingLost(tps, total, t0, before);
      CreditAdds(tps, ticks[|ticks| - 2] - ticks[0], gap);
      CreditAdds(tps, gap, 0);
      assert Earned(tps, ticks) == Earned(tps, before) + Credit(tps, gap);
      TickKeeps(s, tps, total, t, Earned(tps, before));
    }
  }

  /**
   With small gaps, the number sent by each tick is exactly the smaller of total
   and tps + floor(tps * (t - t1) / 1000), t1 being the first tick.
   */
  lemma ExactRate(tps: int, total: int, t0: int, ticks: seq<int>)
    requires tps >= 0 && total >= 0 && ticks != [] && Monotone(t0, ticks) && SmallGaps(tps, ticks)
    ensures Run(tps, total, t0, ticks).sent
            == Min(total, tps + Credit(tps, ticks[|ticks| - 1] - ticks[0]).Floor)
  {
    NothingLost(tps, total, t0, ticks);
  }

  // ---- larger gaps ----

  /** Sends, each weighted by the gap that may cost it, and tokens cover all that was earned, or all is sent. */
  predicate Covers(s: State, total: int, earned: real, weight: real) {
    s.sent >= total
    || (s.sent as real * weight + s.tokens >= earned && 0.0 <= s.tokens < 1.0 && s.sent >= 0)
  }

  lemma CreditWithin(tps: int, elapsed: int, gap: int)
    requires tps >= 0 && 0 <= elapsed <= gap
    ensures 0.0 <= Credit(tps, elapsed) <= Credit(tps, gap)
  {
    CreditAdds(tps, elapsed, gap - elapsed);
    CreditAdds(tps, gap - elapsed, 0);
  }

  lemma WeightedSends(sent: int, n: int, gap: real)
    requires sent >= 0 && n >= 0 && gap >= 0.0
    ensures (sent + n) as real * (1.0 + gap) == sent as real * (1.0 + gap) + n as real + n as real * gap
    ensures n as real * gap >= 0.0
  {
    var x, y := sent as real, n as real;
    assert (sent + n) as real == x + y;
    assert (x + y) * (1.0 + gap) == x * (1.0 + gap) + y * (1.0 + gap);
    assert y * (1.0 + gap) == y + y * gap;
  }

  /** A tick that overflows the bucket fires tps messages, which make up for what was spilled. */
  lemma TickCovers(s: State, tps: int, total: int, t: int, earned: real, gap: int)
    requires tps >= 1 && gap >= 0 && s.sent < total
    requires Covers(s, total, earned, 1.0 + gap as real / PACE_MS)
    requires 0.0 <= Credit(tps, t - s.last) <= Credit(tps, gap)
    ensures Covers(Ticked(s, tps, total, t), total, earned + Credit(tps, t - s.last), 1.0 + gap as real / PACE_MS)
  {
    var g, c := gap as real / PACE_MS, Credit(tps, t - s.last);
    assert Credit(tps, gap) == tps as real * g;
    assert g >= 0.0;
    hide Credit, Ticked, Refilled;
    TickAmounts(s, tps, total, t);
    var n := Fired(Refilled(s, tps, t), total - s.sent);
    WeightedSends(s.sent, n, g);
    var z := Ticked(s, tps, total, t);
    assert z.sent < total && Refilled(s, tps, t) == tps as real ==> n == tps && n as real * g == Credit(tps, gap);
    if z.sent < total {
      Weigh(s.sent as real * (1.0 + g), n as real, n as real * g, z.sent as real * (1.0 + g),
            s.tokens, z.tokens, c, tps as real, Credit(tps, gap), Refilled(s, tps, t), earned);
    }
  }

  /** The same as sums: `before` and `after` are the weighted sends, `extra` the weight of the n new ones. */
  lemma Weigh(before: real, n: real, extra: real, after: real, tokens: real, left: real,
              credit: real, rate: real, full: real, refilled: real, earned: real)
    requires before + tokens >= earned && tokens < 1.0 <= rate && credit <= full
    requires after == before + n + extra && extra >= 0.0 && left == refilled - n
    requires refilled == tokens + credit || (refilled == rate && extra == full)
    ensures after + left >= earned + credit
  {
  }

  lemma TickAmounts(s: State, tps: int, total: int, t: int)
    requires tps >= 1 && s.tokens >= 0.0 && s.sent < total && Credit(tps, t - s.last) >= 0.0
    ensures var r, z := Refilled(s, tps, t), Ticked(s, tps, total, t);
            var n := Fired(r, total - s.sent);
            && (r == tps as real || r == s.tokens + Credit(tps, t - s.last)) && r >= 0.0
            && n >= 0 && z.sent == s.sent + n && z.tokens == r - n as real
            && (z.sent < total ==> 0.0 <= z.tokens < 1.0 && (r == tps as real ==> n == tps))
  {
    hide Credit;
  }

  lemma {:induction false} RunCovers(tps: int, total: int, t0: int, ticks: seq<int>, gap: int)
    requires tps >= 1 && total >= 0 && gap >= 0 && ticks != [] && Monotone(t0, ticks)
    requires forall i :: 0 < i < |ticks| ==> ticks[i] - ticks[i - 1] <= gap
    ensures Covers(Run(tps, total, t0, ticks), total, Earned(tps, ticks), 1.0 + gap as real / PACE_MS)
    decreases |ticks|
  {
    var before, t := ticks[..|ticks| - 1], ticks[|ticks| - 1];
    var s, weight := Run(tps, total, t0, before), 1.0 + gap as real / PACE_MS;
    RunBasics(tps, total, t0, before);
    if |ticks| == 1 {
      hide Credit, Ticked;
      CreditAdds(tps, t - t0, 0);
      CreditAdds(tps, 0, 0);
      assert s == State(tps as real, t0, 0);
      FirstTick(tps, total, t0, t);
      KeepsCovers(Run(tps, total, t0, ticks), total, tps as real, gap);
    } else {
      hide Credit, Ticked, Covers;
      var step := t - ticks[|ticks| - 2];
      RunCovers(tps, total, t0, before, gap);
      CreditAdds(tps, ticks[|ticks| - 2] - ticks[0], step);
      CreditWithin(tps, step, gap);
      assert Earned(tps, ticks) == Earned(tps, before) + Credit(tps, step);
      if s.sent < total {
        TickCovers(s, tps, total, t, Earned(tps, before), gap);
      } else {
        AllSent(s, tps, total, t, Earned(tps, ticks), weight);
      }
    }
  }

  lemma KeepsCovers(s: State, total: int, earned: real, gap: int)
    requires Keeps(s, total, earned) && s.sent >= 0 && gap >= 0
    ensures Covers(s, total, earned, 1.0 + gap as real / PACE_MS)
  {
    var g := gap as real / PACE_MS;
    WeightedSends(0, s.sent, g);
  }

  lemma AllSent(s: State, tps: int, total: int, t: int, earned: real, weight: real)
    requires s.sent >= total
    ensures Covers(Ticked(s, tps, total, t), total, earned, weight)
  {
    hide Refilled;
  }

  /**
   With any gaps of at most `gap` milliseconds, before all is sent: sends times
   1 + gap / 1000 stay less than one message behind tps + tps * (t - t1) / 1000.
   At one tick each 20 ms at least 98 per cent of the rate is met, at any rate.
   */
  lemma RateAtLeast(tps: int, total: int, t0: int, ticks: seq<int>, gap: int)
    requires tps >= 1 && total >= 0 && gap >= 0 && ticks != [] && Monotone(t0, ticks)
    requires forall i :: 0 < i < |ticks| ==> ticks[i] - ticks[i - 1] <= gap
    ensures var sent := Run(tps, total, t0, ticks).sent;
            sent >= total || sent as real * (1.0 + gap as real / PACE_MS) > Earned(tps, ticks) - 1.0
  {
    RunCovers(tps, total, t0, ticks, gap);
  }
}
