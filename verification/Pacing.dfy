/** The integer pacing arithmetic of the rate sender: how many packets a segment
    asks for, how often its ticker fires, and what any sequence of ticks adds up
    to. Times and durations are nanoseconds. */
module Pacing {

  import opened Basics

  const MAX_PACKETS_PER_BURST: nat := 5

  /** The ideal cumulative demand: the floor of elapsed * pps. */
  function Demand(elapsed: int, pps: nat): (d: nat)
  {
    if elapsed <= 0 then 0 else ProductNonNegative(elapsed, pps); elapsed * pps / SECOND
  }

  /** What the sender computes: the product is taken modulo 2^64. */
  function NumPacketsGoal(elapsed: int, pps: nat): (g: nat)
  {
    if elapsed <= 0 then 0 else (elapsed * pps) % UINT64 / SECOND
  }

  /** Ticker interval, reading the floating-point quotient as an exact one. */
  function RateInterval(pps: nat): (d: nat)
    requires pps > 0
    ensures 1 <= d <= MILLISECOND
  {
    Max(1, Min(MAX_PACKETS_PER_BURST * SECOND / pps, MILLISECOND))
  }

  function RateSegmentGoal(now: int, start: int, end: int, pps: nat, missed: nat): (g: nat)
  {
    var goal := NumPacketsGoal(Min(now - start, end - start), pps);
    goal - Min(goal, missed)
  }

  // ----- Exactness of the 64-bit goal -----

  lemma {:induction false} DivMonotone(x: int, y: int)
    requires x <= y
    ensures x / SECOND <= y / SECOND
  {}

  /** The 64-bit computation never exceeds the ideal demand, and it is exact
      precisely when the product fits in 64 bits. */
  lemma {:induction false} GoalExactIffProductFits(elapsed: int, pps: nat)
    ensures NumPacketsGoal(elapsed, pps) <= Demand(elapsed, pps)
    ensures NumPacketsGoal(elapsed, pps) == Demand(elapsed, pps) <==> elapsed <= 0 || elapsed * pps < UINT64
  {
    if elapsed > 0 {
      ProductNonNegative(elapsed, pps);
      WrapLosesDemand(elapsed * pps);
    }
  }

  lemma {:induction false} WrapLosesDemand(x: nat)
    ensures x % UINT64 / SECOND <= x / SECOND
    ensures x % UINT64 / SECOND == x / SECOND <==> x < UINT64
  {
    if x >= UINT64 {
      assert x % UINT64 <= x - UINT64;
      assert x % UINT64 / SECOND <= (x - UINT64) / SECOND < x / SECOND;
    }
  }

  lemma {:induction false} DemandMonotone(a: int, b: int, pps: nat)
    requires a <= b
    ensures Demand(a, pps) <= Demand(b, pps)
  {
    if a > 0 {
      ProductMonotone(a, b, pps);
      DivMonotone(a * pps, b * pps);
    }
  }

  // ----- A tick within one ticker interval asks for at most five packets -----

  lemma {:induction false} IntervalCarriesAtMostFive(pps: nat)
    requires 1 <= pps <= MAX_PACKETS_PER_BURST * SECOND
    ensures RateInterval(pps) * pps <= MAX_PACKETS_PER_BURST * SECOND
  {
    var q := MAX_PACKETS_PER_BURST * SECOND / pps;
    assert q * pps <= MAX_PACKETS_PER_BURST * SECOND;
    QuotientPositive(MAX_PACKETS_PER_BURST * SECOND, pps);
    ProductMonotone(RateInterval(pps), q, pps);
  }

  /** The interval is the longest that carries at most five packets, up to one
      millisecond; if there is none, it is one nanosecond. */
  lemma {:induction false} IntervalIsLongest(pps: nat, d: nat)
    requires 1 <= pps
    ensures d <= RateInterval(pps) <==>
              d <= 1 || (d <= MILLISECOND && d * pps <= MAX_PACKETS_PER_BURST * SECOND)
  {
    var q := MAX_PACKETS_PER_BURST * SECOND / pps;
    assert q * pps <= MAX_PACKETS_PER_BURST * SECOND < (q + 1) * pps;
    if d <= q {
      ProductMonotone(d, q, pps);
    } else {
      ProductMonotone(q + 1, d, pps);
    }
  }

  lemma {:induction false} QuotientPositive(n: nat, d: nat)
    requires 1 <= d <= n
    ensures 1 <= n / d
  {}

  /** Demand grows by at most five over any stretch no longer than the interval. */
  lemma {:induction false} DemandGrowth(elapsed: nat, later: int, pps: nat)
    requires 1 <= pps <= MAX_PACKETS_PER_BURST * SECOND
    requires elapsed <= later <= elapsed + RateInterval(pps)
    ensures Demand(later, pps) <= Demand(elapsed, pps) + MAX_PACKETS_PER_BURST
  {
    IntervalCarriesAtMostFive(pps);
    ProductMonotone(later, elapsed + RateInterval(pps), pps);
    assert (elapsed + RateInterval(pps)) * pps == elapsed * pps + RateInterval(pps) * pps;
    ProductNonNegative(elapsed, pps);
    assert later * pps <= elapsed * pps + 5 * SECOND;
    DivMonotone(later * pps, elapsed * pps + 5 * SECOND);
    assert elapsed == 0 ==> elapsed * pps == 0;
  }

  /** A tick at most one interval after a fully served reading, or after segment
      entry, has at most five packets to send. `previous` is that reading: the
      packets already sent are its whole goal (zero right at entry). */
  lemma {:induction false} TickAsksForAtMostFive(previous: int, now: int, start: int, end: int, pps: nat, missed: nat)
    requires 1 <= pps <= MAX_PACKETS_PER_BURST * SECOND
    requires start <= previous <= now <= previous + RateInterval(pps)
    requires (end - start) * pps < UINT64
    ensures RateSegmentGoal(now, start, end, pps, missed)
         <= RateSegmentGoal(previous, start, end, pps, missed) + MAX_PACKETS_PER_BURST
  {
    var e := Min(previous - start, end - start);
    var l := Min(now - start, end - start);
    FitsBelow(e, end - start, pps);
    FitsBelow(l, end - start, pps);
    if e > 0 {
      DemandGrowth(e, l, pps);
    } else if previous >= start && l > 0 {
      DemandGrowth(0, l, pps);
    }
  }

  lemma {:induction false} FitsBelow(elapsed: int, length: int, pps: nat)
    requires elapsed <= length && length * pps < UINT64
    ensures NumPacketsGoal(elapsed, pps) == Demand(elapsed, pps)
  {
    ProductMonotone(elapsed, length, pps);
    GoalExactIffProductFits(elapsed, pps);
  }

  /** At entry the reading itself defines the missed packets, so nothing is due. */
  lemma {:induction false} NothingDueAtEntry(entry: int, start: int, end: int, pps: nat)
    requires start <= entry < end
    ensures RateSegmentGoal(entry, start, end, pps, NumPacketsGoal(entry - start, pps)) == 0
  {}

  /** Two readings at most one ticker interval apart, in a segment whose product
      stays below 2^64. */
  ghost predicate Adjacent(previous: int, now: int, start: int, end: int, pps: nat)
    requires pps > 0
  {
    start <= previous <= now <= previous + RateInterval(pps) && (end - start) * pps < UINT64
  }

  /** In every segment and phase, a tick one interval after a fully served one asks
      for at most five packets. */
  ghost predicate NeverMoreThanFive(pps: nat)
    requires pps > 0
  {
    forall previous, now, start, end, missed: nat | Adjacent(previous, now, start, end, pps) ::
      RateSegmentGoal(now, start, end, pps, missed)
      <= RateSegmentGoal(previous, start, end, pps, missed) + MAX_PACKETS_PER_BURST
  }

  /** The bound of five holds exactly up to 5 * 10^9 packets per second: beyond that
      rate the interval cannot shrink below one nanosecond, and within the first
      second there is a nanosecond in which six packets become due. */
  lemma {:induction false} FiveBoundExactlyUpToLimit(pps: nat)
    requires 0 < pps < UINT64
    ensures NeverMoreThanFive(pps) <==> pps <= MAX_PACKETS_PER_BURST * SECOND
  {
    if pps <= MAX_PACKETS_PER_BURST * SECOND {
      forall previous, now, start, end, missed: nat | Adjacent(previous, now, start, end, pps)
        ensures RateSegmentGoal(now, start, end, pps, missed)
             <= RateSegmentGoal(previous, start, end, pps, missed) + MAX_PACKETS_PER_BURST
      {
        TickAsksForAtMostFive(previous, now, start, end, pps, missed);
      }
    } else {
      var e := SixAtOnce(pps);
      assert Adjacent(e, e + 1, 0, e + 1, pps);
    }
  }

  /** At phase e, six packets become due in one nanosecond, in 64-bit range. */
  predicate SixDue(e: nat, pps: nat) {
    e < 1_000_000_000 && (e + 1) * pps < UINT64 && NumPacketsGoal(e + 1, pps) >= NumPacketsGoal(e, pps) + 6
  }

  /** Above the limit there is such a phase within the first second. */
  lemma {:induction false} SixAtOnce(pps: nat) returns (e: nat)
    requires 5_000_000_000 < pps < UINT64
    ensures SixDue(e, pps)
    ensures RateSegmentGoal(e + 1, 0, e + 1, pps, 0) >= RateSegmentGoal(e, 0, e + 1, pps, 0) + 6
  {
    if pps >= 6_000_000_000 {
      e := 0;
      SixInFirst(pps);
    } else {
      e := SixWithCarry(pps - 5_000_000_000);
    }
    SixInGoal(e, pps);
  }

  lemma {:induction false} SixInGoal(e: nat, pps: nat)
    requires SixDue(e, pps)
    ensures RateSegmentGoal(e + 1, 0, e + 1, pps, 0) >= RateSegmentGoal(e, 0, e + 1, pps, 0) + 6
  {
    GoalAtPhase(e, e + 1, pps);
    GoalAtPhase(e + 1, e + 1, pps);
  }

  lemma {:induction false} GoalAtPhase(e: nat, length: nat, pps: nat)
    requires e <= length
    ensures RateSegmentGoal(e, 0, length, pps, 0) == NumPacketsGoal(e, pps)
  {
  }

  lemma {:induction false} SixInFirst(pps: nat)
    requires 6_000_000_000 <= pps < UINT64
    ensures SixDue(0, pps)
  {
    assert 1 * pps % UINT64 == pps;
  }

  lemma {:induction false} SixWithCarry(f: nat) returns (e: nat)
    requires 0 < f < 1_000_000_000
    ensures SixDue(e, 5_000_000_000 + f)
  {
    e := LastBeforeCarry(f);
    Distribute(e, 1, f);
    DueWithCarry(e, f, e * f);
    DueWithCarry(e + 1, f, e * f + f);
  }

  /** The last multiple of f below one second. */
  lemma {:induction false} LastBeforeCarry(f: nat) returns (e: nat)
    requires 0 < f < 1_000_000_000
    ensures e < 1_000_000_000 && e * f < 1_000_000_000 <= e * f + f
  {
    e := 999_999_999 / f;
    assert e * f + 999_999_999 % f == 999_999_999;
    AtLeastFactor(e, f);
  }

  lemma {:induction false} AtLeastFactor(e: nat, f: nat)
    requires f > 0
    ensures e <= e * f
  {
    ProductMonotone(1, f, e);
  }

  lemma {:induction false} DueWithCarry(e: nat, f: nat, excess: nat)
    requires excess == e * f < 2_000_000_000 && e <= 1_000_000_000
    ensures e * (5_000_000_000 + f) < UINT64
    ensures NumPacketsGoal(e, 5_000_000_000 + f) == 5 * e + excess / 1_000_000_000
  {
    var product := e * (5_000_000_000 + f);
    assert product == 5_000_000_000 * e + excess;
    SmallGoal(e, product, excess);
  }

  lemma {:induction false} SmallGoal(e: nat, product: nat, excess: nat)
    requires product == 5_000_000_000 * e + excess && excess < 2_000_000_000 && e <= 1_000_000_000
    ensures product < UINT64 && product % UINT64 / SECOND == 5 * e + excess / 1_000_000_000
  {
    assert product % UINT64 == product;
  }

  // ----- Segments as sequences of ticks -----

  /** One ticker wake-up that passed the expiry check: the clock reading it
      took, the goal it computed, and how many packets the socket accepted
      because of it. */
  datatype Tick = Tick(at: int, goal: nat, accepted: nat)

  /** One live segment: its nominal window, the reading at entry, its ticks. */
  datatype Segment = Segment(start: int, end: int, pps: nat, entry: int, ticks: seq<Tick>)
  {
    function Missed(): nat { NumPacketsGoal(entry - start, pps) }

    function Goal(now: int): nat { RateSegmentGoal(now, start, end, pps, Missed()) }

    /** The product of the whole window stays below 2^64. */
    ghost predicate Fits() { (end - start) * pps < UINT64 }

    /** No tick is served beyond what is due at its own reading. */
    ghost predicate Paced() {
      && entry < end
      && GoalsFromReadings(ticks, GoalFunction(start, end, pps, entry))
      && NeverAhead(ticks)
      && InOrder(entry, ticks)
    }
  }

  /** Goal of a segment as a function of the reading alone. */
  function GoalFunction(start: int, end: int, pps: nat, entry: int): int -> nat {
    var missed := NumPacketsGoal(entry - start, pps);
    now => RateSegmentGoal(now, start, end, pps, missed)
  }

  function Total(ticks: seq<Tick>): nat {
    if |ticks| == 0 then 0 else Total(ticks[..|ticks| - 1]) + ticks[|ticks| - 1].accepted
  }

  ghost predicate GoalsFromReadings(ticks: seq<Tick>, goalAt: int -> nat) {
    forall k :: 0 <= k < |ticks| ==> ticks[k].goal == goalAt(ticks[k].at)
  }

  ghost predicate AllBefore(ticks: seq<Tick>, latest: int) {
    forall k :: 0 <= k < |ticks| ==> ticks[k].at <= latest
  }

  ghost predicate NeverAhead(ticks: seq<Tick>) {
    forall k :: 0 <= k < |ticks| ==>
      Total(ticks[..k]) + ticks[k].accepted <= Max(Total(ticks[..k]), ticks[k].goal)
  }

  /** Every tick is served in full. */
  ghost predicate AllWritesComplete(ticks: seq<Tick>) {
    forall k :: 0 <= k < |ticks| ==>
      Total(ticks[..k]) + ticks[k].accepted == Max(Total(ticks[..k]), ticks[k].goal)
  }

  ghost predicate InOrder(entry: int, ticks: seq<Tick>) {
    && (forall k :: 0 <= k < |ticks| ==> entry <= ticks[k].at)
    && (forall j, k :: 0 <= j < k < |ticks| ==> ticks[j].at <= ticks[k].at)
  }

  lemma {:induction false} TotalStep(ticks: seq<Tick>, k: nat)
    requires k < |ticks|
    ensures Total(ticks[..k + 1]) == Total(ticks[..k]) + ticks[k].accepted
  {
    assert ticks[..k + 1][..k] == ticks[..k];
  }

  lemma {:induction false} AppendTick(ticks: seq<Tick>, t: Tick)
    requires NeverAhead(ticks)
    requires Total(ticks) + t.accepted <= Max(Total(ticks), t.goal)
    ensures NeverAhead(ticks + [t])
    ensures Total(ticks + [t]) == Total(ticks) + t.accepted
    ensures AllWritesComplete(ticks) && Total(ticks) + t.accepted == Max(Total(ticks), t.goal) ==>
              AllWritesComplete(ticks + [t])
  {
    var ticks' := ticks + [t];
    assert ticks'[..|ticks|] == ticks;
    forall k | 0 <= k <= |ticks| ensures Total(ticks'[..k]) == Total(ticks[..k]) {
      assert ticks'[..k] == ticks[..k];
    }
    assert ticks[..|ticks|] == ticks;
  }

  lemma {:induction false} AppendReading(ticks: seq<Tick>, t: Tick, entry: int, goalAt: int -> nat)
    requires InOrder(entry, ticks) && AllBefore(ticks, t.at) && entry <= t.at
    requires GoalsFromReadings(ticks, goalAt) && t.goal == goalAt(t.at)
    ensures InOrder(entry, ticks + [t]) && AllBefore(ticks + [t], t.at)
    ensures GoalsFromReadings(ticks + [t], goalAt)
  {}

  /** Whatever the ticks were, a segment sends no more than the demand of its
      whole window minus what was missed before entry. */
  lemma {:induction false} SegmentCap(s: Segment)
    requires s.Paced()
    ensures Total(s.ticks) <= Monus(Demand(s.end - s.start, s.pps), s.Missed())
  {
    var goalAt, cap := GoalFunction(s.start, s.end, s.pps, s.entry), Monus(Demand(s.end - s.start, s.pps), s.Missed());
    forall at ensures goalAt(at) <= cap {
      GoalCap(s, at);
    }
    GoalsCapTotal(s.ticks, goalAt, cap);
  }

  lemma {:induction false} GoalsCapTotal(ticks: seq<Tick>, goalAt: int -> nat, cap: nat)
    requires NeverAhead(ticks) && GoalsFromReadings(ticks, goalAt) && forall at :: goalAt(at) <= cap
    ensures Total(ticks) <= cap
  {
    CappedTotal(ticks, cap, |ticks|);
    assert ticks[..|ticks|] == ticks;
  }

  lemma {:induction false} CappedTotal(ticks: seq<Tick>, cap: nat, k: nat)
    requires NeverAhead(ticks) && k <= |ticks|
    requires forall i :: 0 <= i < |ticks| ==> ticks[i].goal <= cap
    ensures Total(ticks[..k]) <= cap
  {
    if k > 0 {
      CappedTotal(ticks, cap, k - 1);
      TotalStep(ticks, k - 1);
    }
  }

  lemma {:induction false} GoalCap(s: Segment, at: int)
    ensures s.Goal(at) <= Monus(Demand(s.end - s.start, s.pps), s.Missed())
  {
    var elapsed := Min(at - s.start, s.end - s.start);
    GoalExactIffProductFits(elapsed, s.pps);
    DemandMonotone(elapsed, s.end - s.start, s.pps);
  }

  /** When writes complete, the total after a tick is what the rate demands of the
      window up to that tick's reading, less what it demanded before entry. The
      ticks before it do not matter, and a tick at the end reaches the cap. */
  lemma {:induction false} TotalDependsOnlyOnLastReading(s: Segment, k: nat)
    requires s.Paced() && AllWritesComplete(s.ticks) && s.Fits() && k < |s.ticks|
    ensures var at := s.ticks[k].at;
            && Total(s.ticks[..k + 1]) ==
                 Monus(Demand(Min(at - s.start, s.end - s.start), s.pps), Demand(s.entry - s.start, s.pps))
            && (s.end <= at ==> Total(s.ticks[..k + 1]) == Monus(Demand(s.end - s.start, s.pps), s.Missed()))
  {
    GoalRises(s);
    TotalFollowsGoal(s.ticks, GoalFunction(s.start, s.end, s.pps, s.entry), s.entry, k);
    ExactGoal(s, s.ticks[k].at);
  }

  lemma {:induction false} ExactGoal(s: Segment, at: int)
    requires s.Fits() && s.entry < s.end
    ensures s.Missed() == Demand(s.entry - s.start, s.pps)
    ensures s.Goal(at) == Monus(Demand(Min(at - s.start, s.end - s.start), s.pps), s.Missed())
  {
    FitsBelow(s.entry - s.start, s.end - s.start, s.pps);
    FitsBelow(Min(at - s.start, s.end - s.start), s.end - s.start, s.pps);
  }

  lemma {:induction false} GoalRises(s: Segment)
    requires s.Fits()
    ensures Rising(GoalFunction(s.start, s.end, s.pps, s.entry))
  {
    var goalAt := GoalFunction(s.start, s.end, s.pps, s.entry);
    forall a, b | a <= b ensures goalAt(a) <= goalAt(b) {
      GoalMonotone(s, a, b);
    }
  }

  ghost predicate Rising(goalAt: int -> nat) { forall a, b :: a <= b ==> goalAt(a) <= goalAt(b) }

  lemma {:induction false} TotalFollowsGoal(ticks: seq<Tick>, goalAt: int -> nat, entry: int, k: nat)
    requires Rising(goalAt) && GoalsFromReadings(ticks, goalAt) && InOrder(entry, ticks)
    requires AllWritesComplete(ticks) && k < |ticks|
    ensures Total(ticks[..k + 1]) == goalAt(ticks[k].at)
  {
    forall i, j | 0 <= i < j < |ticks| ensures ticks[i].goal <= ticks[j].goal {
      assert goalAt(ticks[i].at) <= goalAt(ticks[j].at);
    }
    LastGoalReached(ticks, k);
  }

  lemma {:induction false} LastGoalReached(ticks: seq<Tick>, k: nat)
    requires AllWritesComplete(ticks) && k < |ticks|
    requires forall i, j :: 0 <= i < j < |ticks| ==> ticks[i].goal <= ticks[j].goal
    ensures Total(ticks[..k + 1]) == ticks[k].goal
  {
    TotalStep(ticks, k);
    if k > 0 {
      LastGoalReached(ticks, k - 1);
    }
  }

  lemma {:induction false} GoalMonotone(s: Segment, a: int, b: int)
    requires a <= b && s.Fits()
    ensures s.Goal(a) <= s.Goal(b)
  {
    var e, l := Min(a - s.start, s.end - s.start), Min(b - s.start, s.end - s.start);
    FitsBelow(e, s.end - s.start, s.pps);
    FitsBelow(l, s.end - s.start, s.pps);
    DemandMonotone(e, l, s.pps);
  }

  /** Two runs of one segment with entirely different earlier ticks agree as
      soon as they take the same reading. */
  lemma {:induction false} SameReadingSameTotal(s: Segment, others: seq<Tick>, j: nat, k: nat)
    requires s.Paced() && AllWritesComplete(s.ticks) && s.Fits() && j < |s.ticks|
    requires s.(ticks := others).Paced() && AllWritesComplete(others) && k < |others|
    requires s.ticks[j].at == others[k].at
    ensures Total(s.ticks[..j + 1]) == Total(others[..k + 1])
  {
    GoalRises(s);
    TotalFollowsGoal(s.ticks, GoalFunction(s.start, s.end, s.pps, s.entry), s.entry, j);
    TotalFollowsGoal(others, GoalFunction(s.start, s.end, s.pps, s.entry), s.entry, k);
  }
}
