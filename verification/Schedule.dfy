/** Reconfiguration intervals (RIs) and the procedures that fit test groups between
    two of them. RIs start at seconds 12, 27, 42 and 57 of every minute. */
module Schedule {
  import opened Basics
  import opened Execution

  // ----- Reconfiguration intervals -----

  predicate IsRI(t: int) { t % SECOND == 0 && t / SECOND % 15 == 12 }

  /** The whole second nearest to ts, halves rounding up. */
  function Rounded(ts: int): int { (ts + SECOND / 2) / SECOND }

  /** The first RI after the rounded second. */
  function NextRIOf(ts: int): int { ((Rounded(ts) - 12) / 15 * 15 + 27) * SECOND }

  method NextRI(ts: int) returns (next: int)
    ensures next == NextRIOf(ts)
  {
    var base := Rounded(ts);
    var starts := [12, 27, 42, 57, 57 + 15];
    var riSec, i := 0, 0;
    while i < |starts|
      invariant 0 <= i <= |starts|
      invariant i > 0 ==> riSec == starts[i - 1] && riSec <= base % 60
    {
      riSec := starts[i];
      if riSec > base % 60 {
        break;
      }
      i := i + 1;
    }
    assert riSec == (base % 60 - 12) / 15 * 15 + 27;
    MinuteSplit(base / 60, base % 60);
    next := (base / 60 * 60 + riSec % 60 + riSec / 60 * 60) * SECOND;
  }

  lemma {:induction false} MinuteSplit(minute: int, second: int)
    ensures (minute * 60 + second - 12) / 15 == minute * 4 + (second - 12) / 15
  {
    var q, r := (second - 12) / 15, (second - 12) % 15;
    assert minute * 60 + second - 12 == 15 * (minute * 4 + q) + r;
  }

  lemma {:induction false} NextRILands(ts: int)
    ensures IsRI(NextRIOf(ts)) && NextRIOf(ts) / SECOND % 60 in {12, 27, 42, 57}
    ensures SECOND / 2 < NextRIOf(ts) - ts <= 31 * (SECOND / 2)
  {
    var k := (Rounded(ts) - 12) / 15;
    QuarterMinute(k / 4, k % 4);
    WholeSeconds(k * 15 + 27);
    RoundedNear(ts);
    QuarterAhead(Rounded(ts), k);
  }

  lemma {:induction false} WholeSeconds(s: int)
    ensures s * SECOND / SECOND == s && s * SECOND % SECOND == 0
  {
  }

  lemma {:induction false} QuarterAhead(s: int, k: int)
    requires k == (s - 12) / 15
    ensures 1 <= k * 15 + 27 - s <= 15
  {
  }

  lemma {:induction false} QuarterMinute(minute: int, quarter: int)
    requires 0 <= quarter < 4
    ensures ((minute * 4 + quarter) * 15 + 27) % 15 == 12
    ensures ((minute * 4 + quarter) * 15 + 27) % 60 in {12, 27, 42, 57}
  {
    var s := (minute * 4 + quarter) * 15 + 27;
    if quarter < 3 {
      assert s == 60 * minute + (quarter * 15 + 27);
    } else {
      assert s == 60 * (minute + 1) + 12;
    }
  }

  lemma {:induction false} RoundedNear(ts: int)
    ensures -500_000_000 < Rounded(ts) * SECOND - ts <= 500_000_000
  {
  }

  lemma {:induction false} NextRIMonotone(ts: int, us: int)
    requires ts <= us
    ensures NextRIOf(ts) <= NextRIOf(us)
  {
    assert Rounded(ts) <= Rounded(us);
  }

  /** From one RI to the next are exactly fifteen seconds. */
  lemma {:induction false} RIToRI(ts: int)
    requires IsRI(ts)
    ensures NextRIOf(ts) == ts + 15 * SECOND
  {
    assert Rounded(ts) == ts / SECOND;
  }

  /** The RI that really follows ts. */
  function FollowingRI(ts: int): int { ((ts / SECOND - 12) / 15 * 15 + 27) * SECOND }

  lemma {:induction false} FollowingIsFirst(ts: int, ri: int)
    ensures IsRI(FollowingRI(ts)) && FollowingRI(ts) > ts
    ensures IsRI(ri) && ri > ts ==> ri >= FollowingRI(ts)
  {
    assert FollowingRI(ts) / SECOND == (ts / SECOND - 12) / 15 * 15 + 27;
    if IsRI(ri) && ri > ts {
      var m := ri / SECOND / 15;
      assert ri == (15 * m + 12) * SECOND;
    }
  }

  /** Because ts is rounded first, an RI at most half a second away is skipped:
      the result is the RI following ts exactly if that one is further off. */
  lemma {:induction false} SkipsNearRI(ts: int)
    ensures NextRIOf(ts) == FollowingRI(ts) <==> FollowingRI(ts) - ts > SECOND / 2
  {
    var s, n := ts / SECOND, ts % SECOND;
    assert Rounded(ts) == if n < SECOND / 2 then s else s + 1;
  }

  // ----- Groups in a window -----

  /** A group of clients that run together. */
  datatype Job = Job(settings: seq<nat>, duration: nat)
  datatype Slot = Slot(job: Job, start: int)

  /** Jobs placed one after the other, up to the first that would not fit. */
  function Greedy(start: int, deadline: int, gap: nat, jobs: seq<Job>): seq<Slot>
    decreases jobs
  {
    if |jobs| == 0 || start + jobs[0].duration + gap > deadline then []
    else [Slot(jobs[0], start)] + Greedy(start + jobs[0].duration + gap, deadline, gap, jobs[1..])
  }

  /** When the group after these slots would start. */
  function Finish(start: int, gap: nat, slots: seq<Slot>): int {
    if |slots| == 0 then start else slots[|slots| - 1].start + slots[|slots| - 1].job.duration + gap
  }

  /** Each slot begins when its predecessor and the gap behind it are over. */
  ghost predicate Chained(start: int, gap: nat, slots: seq<Slot>) {
    forall k :: 0 <= k < |slots| ==> slots[k].start == Finish(start, gap, slots[..k])
  }

  /** Several lists in turn, each up to its own first misfit. */
  function Rounds(start: int, deadline: int, gap: nat, rounds: seq<seq<Job>>): seq<Slot>
    decreases rounds
  {
    if |rounds| == 0 then []
    else
      var first := Greedy(start, deadline, gap, rounds[0]);
      first + Rounds(Finish(start, gap, first), deadline, gap, rounds[1..])
  }

  lemma {:induction false} FinishConcat(start: int, gap: nat, a: seq<Slot>, b: seq<Slot>)
    ensures Finish(start, gap, a + b) == Finish(Finish(start, gap, a), gap, b)
  {
    if |b| > 0 {
      assert (a + b)[|a + b| - 1] == b[|b| - 1];
    } else {
      assert a + b == a;
    }
  }

  lemma {:induction false} ChainedConcat(start: int, gap: nat, a: seq<Slot>, b: seq<Slot>)
    requires Chained(start, gap, a) && Chained(Finish(start, gap, a), gap, b)
    ensures Chained(start, gap, a + b)
  {
    forall k | 0 <= k < |a + b| ensures (a + b)[k].start == Finish(start, gap, (a + b)[..k]) {
      if k < |a| {
        assert (a + b)[..k] == a[..k];
      } else {
        assert (a + b)[..k] == a + b[..k - |a|];
        FinishConcat(start, gap, a, b[..k - |a|]);
      }
    }
  }

  /** Greedy placement is a chain that ends by the deadline. */
  lemma {:induction false} GreedyFits(start: int, deadline: int, gap: nat, jobs: seq<Job>)
    ensures var slots := Greedy(start, deadline, gap, jobs);
            Chained(start, gap, slots) && (slots == [] || Finish(start, gap, slots) <= deadline)
    decreases jobs
  {
    if |jobs| > 0 && start + jobs[0].duration + gap <= deadline {
      var next := start + jobs[0].duration + gap;
      GreedyFits(next, deadline, gap, jobs[1..]);
      var first, rest := [Slot(jobs[0], start)], Greedy(next, deadline, gap, jobs[1..]);
      assert first[..0] == [];
      ChainedConcat(start, gap, first, rest);
      FinishConcat(start, gap, first, rest);
    }
  }

  /** It takes the jobs in order and stops only at the end of the list or at a job
      that does not fit any more. */
  lemma {:induction false} GreedyIsMaximal(start: int, deadline: int, gap: nat, jobs: seq<Job>)
    ensures var slots := Greedy(start, deadline, gap, jobs);
            && |slots| <= |jobs| && (forall k :: 0 <= k < |slots| ==> slots[k].job == jobs[k])
            && (|slots| < |jobs| ==> Finish(start, gap, slots) + jobs[|slots|].duration + gap > deadline)
    decreases jobs
  {
    if |jobs| > 0 && start + jobs[0].duration + gap <= deadline {
      var next := start + jobs[0].duration + gap;
      GreedyIsMaximal(next, deadline, gap, jobs[1..]);
      FinishConcat(start, gap, [Slot(jobs[0], start)], Greedy(next, deadline, gap, jobs[1..]));
    }
  }

  lemma {:induction false} RoundsFit(start: int, deadline: int, gap: nat, rounds: seq<seq<Job>>)
    ensures var slots := Rounds(start, deadline, gap, rounds);
            Chained(start, gap, slots) && (slots == [] || Finish(start, gap, slots) <= deadline)
    decreases rounds
  {
    if |rounds| > 0 {
      var first := Greedy(start, deadline, gap, rounds[0]);
      GreedyFits(start, deadline, gap, rounds[0]);
      RoundsFit(Finish(start, gap, first), deadline, gap, rounds[1..]);
      var rest := Rounds(Finish(start, gap, first), deadline, gap, rounds[1..]);
      ChainedConcat(start, gap, first, rest);
      FinishConcat(start, gap, first, rest);
      assert rest == [] ==> first + rest == first;
    }
  }

  lemma {:induction false} FinishGrows(start: int, gap: nat, slots: seq<Slot>, j: nat, k: nat)
    requires Chained(start, gap, slots) && j <= k <= |slots|
    ensures start <= Finish(start, gap, slots[..j]) <= Finish(start, gap, slots[..k])
  {
    if k > 0 {
      assert slots[..k][k - 1] == slots[k - 1];
      assert slots[k - 1].start == Finish(start, gap, slots[..k - 1]);
      FinishGrows(start, gap, slots, if j == k then j - 1 else j, k - 1);
    }
  }

  /** Any two slots are separated by the gap. */
  ghost predicate Disjoint(slots: seq<Slot>, gap: nat) {
    forall j, k :: 0 <= j < k < |slots| ==> slots[j].start + slots[j].job.duration + gap <= slots[k].start
  }

  /** Slots of a chain that begins at start and ends by the deadline lie between
      the two, and never overlap: the gap separates any two of them. */
  lemma {:induction false} ChainIsDisjoint(start: int, deadline: int, gap: nat, slots: seq<Slot>)
    requires Chained(start, gap, slots) && (slots == [] || Finish(start, gap, slots) <= deadline)
    ensures forall k :: 0 <= k < |slots| ==>
              start <= slots[k].start && slots[k].start + slots[k].job.duration + gap <= deadline
    ensures Disjoint(slots, gap)
  {
    assert slots[..|slots|] == slots;
    forall k | 0 <= k < |slots|
      ensures start <= slots[k].start && slots[k].start + slots[k].job.duration + gap <= deadline
    {
      FinishGrows(start, gap, slots, k, |slots|);
      FinishGrows(start, gap, slots, k + 1, |slots|);
      assert slots[..k + 1][k] == slots[k];
    }
    forall j, k | 0 <= j < k < |slots| ensures slots[j].start + slots[j].job.duration + gap <= slots[k].start {
      FinishGrows(start, gap, slots, j + 1, k);
      assert slots[..j + 1][j] == slots[j];
    }
  }

  /** For any reference time that is an RI, all groups of any fitting procedure run
      without overlap inside [ts + 1 s, ts + 14 s], and so inside the capture
      window [ts, ts + 15 s]; the procedure does not give up. */
  lemma {:induction false} GroupsInsideInterval(ts: int, gap: nat, rounds: seq<seq<Job>>)
    requires IsRI(ts)
    ensures !Overrun(ts)
    ensures var slots := Rounds(ts + SECOND, NextRIOf(ts) - SECOND, gap, rounds);
            && (forall k :: 0 <= k < |slots| ==>
                  ts + SECOND <= slots[k].start && slots[k].start + slots[k].job.duration + gap <= ts + 14 * SECOND)
            && Disjoint(slots, gap)
  {
    RIToRI(ts);
    RoundsFit(ts + SECOND, NextRIOf(ts) - SECOND, gap, rounds);
    ChainIsDisjoint(ts + SECOND, NextRIOf(ts) - SECOND, gap, Rounds(ts + SECOND, NextRIOf(ts) - SECOND, gap, rounds));
  }

  /** A procedure panics on reference times less than two seconds before their RI. */
  predicate Overrun(ts: int) { NextRIOf(ts) - ts < 2 * SECOND }

  // ----- The clients of a group -----

  function GroupClients(slot: Slot, kinds: seq<string>): (c: seq<Client>)
    ensures |c| == |kinds|
  {
    seq(|kinds|, i requires 0 <= i < |kinds| => Client(kinds[i], slot.job.settings, slot.start, slot.job.duration))
  }

  function Clients(slots: seq<Slot>, kinds: seq<string>): seq<Client> {
    if |slots| == 0 then [] else Clients(slots[..|slots| - 1], kinds) + GroupClients(slots[|slots| - 1], kinds)
  }

  /** Paired captures over the whole interval. */
  function Captures(ts: int): seq<Client> {
    [Client("tcpdump_local", [], ts, 15 * SECOND), Client("tcpdump_remote", [], ts, 15 * SECOND)]
  }

  /** What a procedure adds to the executor. */
  function Procedure(ts: int, slots: seq<Slot>, kinds: seq<string>): seq<Client> {
    Clients(slots, kinds) + if Overrun(ts) then [] else Captures(ts)
  }

  lemma {:induction false} AddSlot(slots: seq<Slot>, slot: Slot, kinds: seq<string>)
    ensures Clients(slots + [slot], kinds) == Clients(slots, kinds) + GroupClients(slot, kinds)
  {
    assert (slots + [slot])[..|slots|] == slots;
  }

  /** Every client of a group belongs to one of its slots. */
  lemma {:induction false} ClientHasSlot(slots: seq<Slot>, kinds: seq<string>, c: Client)
    requires c in Clients(slots, kinds)
    ensures exists k :: 0 <= k < |slots| && c.startAt == slots[k].start && c.duration == slots[k].job.duration
  {
    if |slots| > 0 {
      var n := |slots| - 1;
      if c in Clients(slots[..n], kinds) {
        ClientHasSlot(slots[..n], kinds, c);
      } else {
        assert c in GroupClients(slots[n], kinds);
      }
    }
  }

  /** No client of a group outlives the capture that was started for it. */
  lemma {:induction false} ClientsAreCaptured(ts: int, gap: nat, rounds: seq<seq<Job>>, kinds: seq<string>, c: Client)
    requires IsRI(ts) && c in Clients(Rounds(ts + SECOND, NextRIOf(ts) - SECOND, gap, rounds), kinds)
    ensures ts + SECOND <= c.startAt && c.startAt + c.duration + gap <= ts + 14 * SECOND
  {
    GroupsInsideInterval(ts, gap, rounds);
    ClientHasSlot(Rounds(ts + SECOND, NextRIOf(ts) - SECOND, gap, rounds), kinds, c);
  }

  /** Two clients of one group, or of two groups with the gap between them. */
  predicate Apart(c: Client, d: Client, gap: nat) {
    (c.startAt == d.startAt && c.duration == d.duration) || c.startAt + c.duration + gap <= d.startAt
  }

  ghost predicate AllApart(clients: seq<Client>, gap: nat) {
    forall i, j :: 0 <= i < j < |clients| ==> Apart(clients[i], clients[j], gap)
  }

  lemma {:induction false} ClientsApart(slots: seq<Slot>, kinds: seq<string>, gap: nat)
    requires Disjoint(slots, gap)
    ensures AllApart(Clients(slots, kinds), gap)
  {
    if |slots| > 0 {
      var n := |slots| - 1;
      var before, last := Clients(slots[..n], kinds), GroupClients(slots[n], kinds);
      ClientsApart(slots[..n], kinds, gap);
      forall i | 0 <= i < |before| ensures before[i].startAt + before[i].duration + gap <= slots[n].start {
        ClientHasSlot(slots[..n], kinds, before[i]);
      }
      JoinApart(before, last, gap, slots[n]);
    }
  }

  lemma {:induction false} JoinApart(before: seq<Client>, last: seq<Client>, gap: nat, slot: Slot)
    requires AllApart(before, gap)
    requires forall i :: 0 <= i < |before| ==> before[i].startAt + before[i].duration + gap <= slot.start
    requires forall i :: 0 <= i < |last| ==> last[i].startAt == slot.start && last[i].duration == slot.job.duration
    ensures AllApart(before + last, gap)
  {}

  ghost predicate InsideInterval(clients: seq<Client>, ts: int, gap: nat) {
    forall i :: 0 <= i < |clients| ==>
      ts + SECOND <= clients[i].startAt && clients[i].startAt + clients[i].duration + gap <= ts + 14 * SECOND
  }

  /** What a procedure adds for an interval start: groups of clients apart from each
      other inside [ts + 1 s, ts + 14 s], and two captures of the whole interval. */
  ghost predicate WellPlaced(added: seq<Client>, ts: int, gap: nat) {
    && |added| >= 2 && added[|added| - 2..] == Captures(ts)
    && InsideInterval(added[..|added| - 2], ts, gap) && AllApart(added[..|added| - 2], gap)
  }

  lemma {:induction false} ClientsInside(ts: int, gap: nat, rounds: seq<seq<Job>>, kinds: seq<string>)
    requires IsRI(ts)
    ensures InsideInterval(Clients(Rounds(ts + SECOND, NextRIOf(ts) - SECOND, gap, rounds), kinds), ts, gap)
  {
    var clients := Clients(Rounds(ts + SECOND, NextRIOf(ts) - SECOND, gap, rounds), kinds);
    forall i | 0 <= i < |clients|
      ensures ts + SECOND <= clients[i].startAt && clients[i].startAt + clients[i].duration + gap <= ts + 14 * SECOND
    {
      ClientsAreCaptured(ts, gap, rounds, kinds, clients[i]);
    }
  }

  lemma {:induction false} ProcedureIsWellPlaced(ts: int, gap: nat, rounds: seq<seq<Job>>, kinds: seq<string>)
    requires IsRI(ts)
    ensures !Overrun(ts)
    ensures WellPlaced(Procedure(ts, Rounds(ts + SECOND, NextRIOf(ts) - SECOND, gap, rounds), kinds), ts, gap)
  {
    var slots := Rounds(ts + SECOND, NextRIOf(ts) - SECOND, gap, rounds);
    GroupsInsideInterval(ts, gap, rounds);
    ClientsApart(slots, kinds, gap);
    ClientsInside(ts, gap, rounds, kinds);
    var added := Procedure(ts, slots, kinds);
    assert added == Clients(slots, kinds) + Captures(ts);
    assert added[..|added| - 2] == Clients(slots, kinds);
  }

  lemma {:induction false} AddedIsWellPlaced(before: seq<Client>, after: seq<Client>, ts: int, gap: nat,
                                             rounds: seq<seq<Job>>, kinds: seq<string>)
    requires IsRI(ts)
    requires after == before + Procedure(ts, Rounds(ts + SECOND, NextRIOf(ts) - SECOND, gap, rounds), kinds)
    ensures !Overrun(ts) && WellPlaced(after[|before|..], ts, gap)
  {
    ProcedureIsWellPlaced(ts, gap, rounds, kinds);
    assert after[|before|..] == Procedure(ts, Rounds(ts + SECOND, NextRIOf(ts) - SECOND, gap, rounds), kinds);
  }

  // ----- The procedures -----

  lemma {:induction false} SingleRound(start: int, deadline: int, gap: nat, jobs: seq<Job>)
    ensures Rounds(start, deadline, gap, [jobs]) == Greedy(start, deadline, gap, jobs)
  {
    var first := Greedy(start, deadline, gap, jobs);
    assert Rounds(Finish(start, gap, first), deadline, gap, [jobs][1..]) == [];
  }

  /** The jobs from n on still have to follow the slots placed so far. */
  ghost predicate Remaining(all: seq<Slot>, placed: seq<Slot>, start: int, deadline: int, gap: nat, jobs: seq<Job>,
                            n: nat) {
    n <= |jobs| && all == placed + Greedy(start, deadline, gap, jobs[n..])
  }

  lemma {:induction false} RemainingStep(all: seq<Slot>, placed: seq<Slot>, start: int, deadline: int, gap: nat,
                                         jobs: seq<Job>, n: nat)
    requires Remaining(all, placed, start, deadline, gap, jobs, n)
    ensures n < |jobs| && start + jobs[n].duration + gap <= deadline ==>
              Remaining(all, placed + [Slot(jobs[n], start)], start + jobs[n].duration + gap, deadline, gap,
                        jobs, n + 1)
    ensures n == |jobs| || start + jobs[n].duration + gap > deadline ==> all == placed
  {
    if n < |jobs| {
      assert jobs[n..][0] == jobs[n] && jobs[n..][1..] == jobs[n + 1..];
    }
  }

  lemma {:induction false} ClientsConcat(a: seq<Slot>, b: seq<Slot>, kinds: seq<string>)
    ensures Clients(a + b, kinds) == Clients(a, kinds) + Clients(b, kinds)
  {
    if |b| == 0 {
      assert a + b == a;
    } else {
      var n := |b| - 1;
      assert (a + b)[..|a + b| - 1] == a + b[..n];
      ClientsConcat(a, b[..n], kinds);
    }
  }

  method RunGroup(e: Executor, slot: Slot, kinds: seq<string>)
    requires e.Valid()
    modifies e
    ensures e.Valid() && e.clients == old(e.clients) + GroupClients(slot, kinds)
  {
    for i := 0 to |kinds|
      invariant e.Valid() && e.clients == old(e.clients) + GroupClients(slot, kinds)[..i]
    {
      e.RunClient(Client(kinds[i], slot.job.settings, slot.start, slot.job.duration));
    }
  }

  method Tcpdump(e: Executor, ts: int, duration: nat)
    requires e.Valid()
    modifies e
    ensures e.Valid()
    ensures e.clients ==
              old(e.clients) + [Client("tcpdump_local", [], ts, duration), Client("tcpdump_remote", [], ts, duration)]
  {
    e.RunClient(Client("tcpdump_local", [], ts, duration));
    e.RunClient(Client("tcpdump_remote", [], ts, duration));
  }

  /** The executor holds `base` and behind it the clients of these slots; the next
      group would start at `start`. */
  ghost predicate Holds(clients: seq<Client>, base: seq<Client>, kinds: seq<string>, first: int, gap: nat,
                        slots: seq<Slot>, start: int) {
    clients == base + Clients(slots, kinds) && start == Finish(first, gap, slots)
  }

  lemma {:induction false} HoldsNothing(base: seq<Client>, kinds: seq<string>, first: int, gap: nat)
    ensures Holds(base, base, kinds, first, gap, [], first)
  {
  }

  lemma {:induction false} HoldsMore(base: seq<Client>, kinds: seq<string>, first: int, gap: nat, a: seq<Slot>,
                                     start: int,
                                     b: seq<Slot>, end: int)
    requires start == Finish(first, gap, a) && end == Finish(start, gap, b)
    ensures Holds(base + Clients(a, kinds) + Clients(b, kinds), base, kinds, first, gap, a + b, end)
  {
    ClientsConcat(a, b, kinds);
    FinishConcat(first, gap, a, b);
  }

  lemma {:induction false} OneSlot(slot: Slot, kinds: seq<string>)
    ensures Clients([slot], kinds) == GroupClients(slot, kinds)
  {
    AddSlot([], slot, kinds);
    assert [] + [slot] == [slot];
  }

  /** One list of jobs in the order drawn: the loop stops at the first misfit. */
  method PlaceJobs(e: Executor, first: int, deadline: int, gap: nat, jobs: seq<Job>, kinds: seq<string>)
    returns (start: int)
    requires e.Valid()
    modifies e
    ensures e.Valid() && Holds(e.clients, old(e.clients), kinds, first, gap, Greedy(first, deadline, gap, jobs), start)
  {
    start := first;
    ghost var placed, all := [], Greedy(first, deadline, gap, jobs);
    assert jobs[0..] == jobs;
    HoldsNothing(e.clients, kinds, first, gap);
    var n := 0;
    while n < |jobs| && start + jobs[n].duration + gap <= deadline
      invariant n <= |jobs| && e.Valid() && Holds(e.clients, old(e.clients), kinds, first, gap, placed, start)
      invariant Remaining(all, placed, start, deadline, gap, jobs, n)
    {
      RemainingStep(all, placed, start, deadline, gap, jobs, n);
      ghost var slot := Slot(jobs[n], start);
      HoldsMore(old(e.clients), kinds, first, gap, placed, start, [slot], start + jobs[n].duration + gap);
      OneSlot(slot, kinds);
      RunGroup(e, Slot(jobs[n], start), kinds);
      placed := placed + [slot];
      start := start + jobs[n].duration + gap;
      n := n + 1;
    }
    RemainingStep(all, placed, start, deadline, gap, jobs, n);
  }

  /** The lists from n on still have to follow the slots placed so far. */
  ghost predicate RoundsLeft(all: seq<Slot>, placed: seq<Slot>, start: int, deadline: int, gap: nat,
                             rounds: seq<seq<Job>>, n: nat) {
    n <= |rounds| && all == placed + Rounds(start, deadline, gap, rounds[n..])
  }

  lemma {:induction false} RoundsLeftStep(all: seq<Slot>, placed: seq<Slot>, start: int, deadline: int, gap: nat,
                                          rounds: seq<seq<Job>>, n: nat)
    requires RoundsLeft(all, placed, start, deadline, gap, rounds, n)
    ensures n < |rounds| ==>
              (var slots := Greedy(start, deadline, gap, rounds[n]);
               RoundsLeft(all, placed + slots, Finish(start, gap, slots), deadline, gap, rounds, n + 1))
    ensures n == |rounds| ==> all == placed
  {
    if n < |rounds| {
      assert rounds[n..][0] == rounds[n] && rounds[n..][1..] == rounds[n + 1..];
    }
  }

  /** All lists of jobs in turn; a misfit ends only its own list. */
  method PlaceRounds(e: Executor, first: int, deadline: int, gap: nat, rounds: seq<seq<Job>>, kinds: seq<string>)
    returns (start: int)
    requires e.Valid()
    modifies e
    ensures e.Valid()
    ensures Holds(e.clients, old(e.clients), kinds, first, gap, Rounds(first, deadline, gap, rounds), start)
  {
    start := first;
    ghost var placed, all := [], Rounds(first, deadline, gap, rounds);
    assert rounds[0..] == rounds;
    HoldsNothing(e.clients, kinds, first, gap);
    for n := 0 to |rounds|
      invariant e.Valid() && Holds(e.clients, old(e.clients), kinds, first, gap, placed, start)
      invariant RoundsLeft(all, placed, start, deadline, gap, rounds, n)
    {
      ghost var slots := Greedy(start, deadline, gap, rounds[n]);
      RoundsLeftStep(all, placed, start, deadline, gap, rounds, n);
      HoldsMore(old(e.clients), kinds, first, gap, placed, start, slots, Finish(start, gap, slots));
      start := PlaceJobs(e, start, deadline, gap, rounds[n], kinds);
      placed := placed + slots;
    }
    RoundsLeftStep(all, placed, start, deadline, gap, rounds, |rounds|);
  }

  /** The closing check of a procedure fails only if there was no room to begin with. */
  lemma {:induction false} PanicExactly(ts: int, gap: nat, rounds: seq<seq<Job>>)
    ensures Finish(ts + SECOND, gap, Rounds(ts + SECOND, NextRIOf(ts) - SECOND, gap, rounds)) > NextRIOf(ts) - SECOND
            <==> Overrun(ts)
  {
    var first, deadline := ts + SECOND, NextRIOf(ts) - SECOND;
    RoundsFit(first, deadline, gap, rounds);
    var slots := Rounds(first, deadline, gap, rounds);
    if slots != [] {
      FinishGrows(first, gap, slots, 0, |slots|);
      assert slots[..|slots|] == slots;
    }
  }

  /** What all fitting procedures do with their groups: place them from one second
      after the reference time, check the deadline, and capture the interval. */
  method FitAndCapture(e: Executor, ts: int, gap: nat, rounds: seq<seq<Job>>, kinds: seq<string>)
    returns (panicked: bool)
    requires e.Valid()
    modifies e
    ensures e.Valid() && panicked == Overrun(ts)
    ensures e.clients == old(e.clients) + Procedure(ts, Rounds(ts + SECOND, NextRIOf(ts) - SECOND, gap, rounds), kinds)
    ensures IsRI(ts) ==> !panicked && WellPlaced(e.clients[|old(e.clients)|..], ts, gap)
  {
    ghost var before := e.clients;
    var ri := NextRI(ts);
    var deadline := ri - SECOND;
    var start := PlaceRounds(e, ts + SECOND, deadline, gap, rounds, kinds);
    PanicExactly(ts, gap, rounds);
    panicked := start > deadline;
    if !panicked {
      Tcpdump(e, ts, 15 * SECOND);
    }
    if IsRI(ts) {
      AddedIsWellPlaced(before, e.clients, ts, gap, rounds, kinds);
    }
  }

  // ----- The four procedures -----

  /** The groups of one list that fit into the interval of ts. */
  function Fitting(ts: int, gap: nat, jobs: seq<Job>): seq<Slot> {
    Greedy(ts + SECOND, NextRIOf(ts) - SECOND, gap, jobs)
  }

  /** All pairs, the second component running fastest. */
  function Product(a: seq<nat>, b: seq<nat>): (pairs: seq<(nat, nat)>)
    ensures forall p <- pairs :: p.0 in a && p.1 in b
  {
    if |a| == 0 then []
    else seq(|b|, i requires 0 <= i < |b| => (a[0], b[i])) + Product(a[1..], b)
  }

  /** `order` draws indices below n. */
  predicate Draws(order: seq<nat>, n: nat) { forall i :: 0 <= i < |order| ==> order[i] < n }

  /** Groups over durations in milliseconds, in the order drawn. */
  function TimedJobs(settings: seq<nat>, durationsMs: seq<nat>, order: seq<nat>): seq<Job>
    requires Draws(order, |durationsMs|)
  {
    seq(|order|, i requires 0 <= i < |order| => Job(settings, durationsMs[order[i]] * MILLISECOND))
  }

  function TcpJobs(args: seq<(nat, nat)>, order: seq<nat>): seq<Job>
    requires Draws(order, |args|)
  {
    seq(|order|, i requires 0 <= i < |order| => Job([args[order[i]].1], args[order[i]].0 * MILLISECOND))
  }

  /** TCP flows over durations and congestion control algorithms, with probes. */
  method DurationTCP(e: Executor, ts: int, durationsMs: seq<nat>, ccas: seq<nat>, order: seq<nat>)
    returns (panicked: bool)
    requires e.Valid() && Draws(order, |Product(durationsMs, ccas)|)
    modifies e
    ensures e.Valid() && panicked == Overrun(ts)
    ensures e.clients == old(e.clients) +
              Procedure(ts, Fitting(ts, 2 * SECOND, TcpJobs(Product(durationsMs, ccas), order)),
                        ["tcp", "owd-icmp", "owd-udp"])
    ensures IsRI(ts) ==> !panicked && WellPlaced(e.clients[|old(e.clients)|..], ts, 2 * SECOND)
  {
    var jobs := TcpJobs(Product(durationsMs, ccas), order);
    SingleRound(ts + SECOND, NextRIOf(ts) - SECOND, 2 * SECOND, jobs);
    panicked := FitAndCapture(e, ts, 2 * SECOND, [jobs], ["tcp", "owd-icmp", "owd-udp"]);
  }

  /** QUIC transfers over durations. */
  method ProgressiveDurationQUIC(e: Executor, ts: int, durationsMs: seq<nat>, order: seq<nat>) returns (panicked: bool)
    requires e.Valid() && Draws(order, |durationsMs|)
    modifies e
    ensures e.Valid() && panicked == Overrun(ts)
    ensures e.clients == old(e.clients) +
              Procedure(ts, Fitting(ts, SECOND, TimedJobs([], durationsMs, order)), ["quic"])
    ensures IsRI(ts) ==> !panicked && WellPlaced(e.clients[|old(e.clients)|..], ts, SECOND)
  {
    var jobs := TimedJobs([], durationsMs, order);
    SingleRound(ts + SECOND, NextRIOf(ts) - SECOND, SECOND, jobs);
    panicked := FitAndCapture(e, ts, SECOND, [jobs], ["quic"]);
  }

  function RateRounds(ratesMbps: seq<nat>, rateOrder: seq<nat>, durationsMs: seq<nat>,
                      orders: seq<seq<nat>>): seq<seq<Job>>
    requires Draws(rateOrder, |ratesMbps|) && |orders| == |rateOrder|
    requires forall o <- orders :: Draws(o, |durationsMs|)
  {
    seq(|rateOrder|, i requires 0 <= i < |rateOrder| => TimedJobs([ratesMbps[rateOrder[i]]], durationsMs, orders[i]))
  }

  /** Rate tests: for every rate drawn, the durations in an order of its own. */
  method MultiDurationRate(e: Executor, ts: int, ratesMbps: seq<nat>, rateOrder: seq<nat>, durationsMs: seq<nat>,
                           orders: seq<seq<nat>>) returns (panicked: bool)
    requires e.Valid() && Draws(rateOrder, |ratesMbps|) && |orders| == |rateOrder|
    requires forall o <- orders :: Draws(o, |durationsMs|)
    modifies e
    ensures e.Valid() && panicked == Overrun(ts)
    ensures e.clients == old(e.clients) +
              Procedure(ts, Rounds(ts + SECOND, NextRIOf(ts) - SECOND, 2 * SECOND,
                                   RateRounds(ratesMbps, rateOrder, durationsMs, orders)),
                        ["rate", "owd-icmp", "owd-udp"])
    ensures IsRI(ts) ==> !panicked && WellPlaced(e.clients[|old(e.clients)|..], ts, 2 * SECOND)
  {
    panicked := FitAndCapture(e, ts, 2 * SECOND, RateRounds(ratesMbps, rateOrder, durationsMs, orders),
                              ["rate", "owd-icmp", "owd-udp"]);
  }

  /** Burst size depends on the direction; a burst may take all of its four seconds. */
  function BurstJobs(uplink: bool, order: seq<nat>): seq<Job>
    requires Draws(order, 3)
  {
    seq(|order|, i requires 0 <= i < |order| =>
      Job([if uplink then 10000 else 3000, [0, 700, 1400][order[i]]], 4 * SECOND))
  }

  /** Bursts, `runs` of them in parallel per group. */
  method MultiBurst(e: Executor, ts: int, uplink: bool, order: seq<nat>, runs: nat) returns (panicked: bool)
    requires e.Valid() && Draws(order, 3)
    modifies e
    ensures e.Valid() && panicked == Overrun(ts)
    ensures e.clients == old(e.clients) +
              Procedure(ts, Fitting(ts, 0, BurstJobs(uplink, order)), seq(runs, i => "burst"))
    ensures IsRI(ts) ==> !panicked && WellPlaced(e.clients[|old(e.clients)|..], ts, 0)
  {
    var jobs := BurstJobs(uplink, order);
    SingleRound(ts + SECOND, NextRIOf(ts) - SECOND, 0, jobs);
    panicked := FitAndCapture(e, ts, 0, [jobs], seq(runs, i => "burst"));
  }

  // ----- What exactly is launched -----

  /** Where the k-th group starts if nothing is left out before it. */
  function StartOf(first: int, gap: nat, jobs: seq<Job>, k: nat): int
    requires k <= |jobs|
  {
    if k == 0 then first else StartOf(first, gap, jobs, k - 1) + jobs[k - 1].duration + gap
  }

  lemma {:induction false} StartAt(first: int, gap: nat, slots: seq<Slot>, jobs: seq<Job>, k: nat)
    requires Chained(first, gap, slots)
    requires k <= |slots| <= |jobs| && forall i :: 0 <= i < |slots| ==> slots[i].job == jobs[i]
    ensures Finish(first, gap, slots[..k]) == StartOf(first, gap, jobs, k)
  {
    if k > 0 {
      StartAt(first, gap, slots, jobs, k - 1);
      assert slots[k - 1].start == Finish(first, gap, slots[..k - 1]);
    }
  }

  lemma {:induction false} ClientAt(slots: seq<Slot>, kinds: seq<string>, k: nat, i: nat)
    requires k < |slots| && i < |kinds|
    ensures |Clients(slots, kinds)| == |slots| * |kinds| && k * |kinds| + i < |slots| * |kinds|
    ensures Clients(slots, kinds)[k * |kinds| + i]
         == Client(kinds[i], slots[k].job.settings, slots[k].start, slots[k].job.duration)
  {
    var n := |slots| - 1;
    ClientCount(slots, kinds);
    ClientCount(slots[..n], kinds);
    if k < n {
      ClientAt(slots[..n], kinds, k, i);
    }
    GroupIndex(n, k, |kinds|, i);
  }

  lemma {:induction false} GroupIndex(n: nat, k: nat, m: nat, i: nat)
    requires k <= n && i < m
    ensures k * m + i < (n + 1) * m && (n + 1) * m == n * m + m && (k < n ==> k * m + i < n * m)
  {
    ProductMonotone(k, n, m);
    if k < n {
      ProductMonotone(k + 1, n, m);
    }
  }

  lemma {:induction false} ClientCount(slots: seq<Slot>, kinds: seq<string>)
    ensures |Clients(slots, kinds)| == |slots| * |kinds|
  {
    if |slots| > 0 {
      ClientCount(slots[..|slots| - 1], kinds);
    }
  }

  /** The i-th client of the k-th group runs the k-th job drawn, right after its
      predecessors and the gap. */
  lemma {:induction false} LaunchedAt(ts: int, gap: nat, jobs: seq<Job>, kinds: seq<string>, k: nat, i: nat)
    requires k < |Fitting(ts, gap, jobs)| && i < |kinds|
    ensures k < |jobs| && k * |kinds| + i < |Procedure(ts, Fitting(ts, gap, jobs), kinds)|
    ensures Procedure(ts, Fitting(ts, gap, jobs), kinds)[k * |kinds| + i]
         == Client(kinds[i], jobs[k].settings, StartOf(ts + SECOND, gap, jobs, k), jobs[k].duration)
  {
    var slots := Fitting(ts, gap, jobs);
    GreedyIsMaximal(ts + SECOND, NextRIOf(ts) - SECOND, gap, jobs);
    GreedyFits(ts + SECOND, NextRIOf(ts) - SECOND, gap, jobs);
    StartAt(ts + SECOND, gap, slots, jobs, k);
    ClientAt(slots, kinds, k, i);
  }

  /** The product has every pair, those of one first component side by side. */
  lemma {:induction false} ProductAt(a: seq<nat>, b: seq<nat>, i: nat, j: nat)
    requires i < |a| && j < |b|
    ensures |Product(a, b)| == |a| * |b| && i * |b| + j < |a| * |b|
    ensures Product(a, b)[i * |b| + j] == (a[i], b[j])
  {
    ProductCount(a, b);
    GroupIndex(|a| - 1, i, |b|, j);
    PairAt(a, b, i, j, i * |b| + j);
  }

  lemma {:induction false} PairAt(a: seq<nat>, b: seq<nat>, i: nat, j: nat, x: nat)
    requires i < |a| && j < |b| && x == i * |b| + j
    ensures x < |Product(a, b)| && Product(a, b)[x] == (a[i], b[j])
  {
    if i > 0 {
      LaterPair(i, |b|, j);
      PairAt(a[1..], b, i - 1, j, x - |b|);
    }
  }

  lemma {:induction false} LaterPair(i: nat, m: nat, j: nat)
    requires i > 0
    ensures i * m + j - m == (i - 1) * m + j >= 0
  {
    ProductNonNegative(i - 1, m);
  }

  lemma {:induction false} ProductCount(a: seq<nat>, b: seq<nat>)
    ensures |Product(a, b)| == |a| * |b|
  {
    if |a| > 0 {
      ProductCount(a[1..], b);
      assert |a| * |b| == (|a| - 1) * |b| + |b|;
    }
  }

  /** If the k-th draw is the pair of duration d and algorithm c, then the k-th group
      of the TCP procedure runs that algorithm for so many milliseconds. */
  lemma {:induction false} TcpLaunchedAt(ts: int, durationsMs: seq<nat>, ccas: seq<nat>, order: seq<nat>, k: nat,
                                         i: nat, d: nat, c: nat)
    requires Draws(order, |Product(durationsMs, ccas)|) && d < |durationsMs| && c < |ccas|
    requires var jobs := TcpJobs(Product(durationsMs, ccas), order);
             k < |Fitting(ts, 2 * SECOND, jobs)| && k < |order| && order[k] == d * |ccas| + c && i < 3
    ensures var jobs := TcpJobs(Product(durationsMs, ccas), order);
            var kinds := ["tcp", "owd-icmp", "owd-udp"];
            var added := Procedure(ts, Fitting(ts, 2 * SECOND, jobs), kinds);
            && k < |jobs| == |order| && 3 * k + i < |added|
            && added[3 * k + i] == Client(kinds[i], [ccas[c]], StartOf(ts + SECOND, 2 * SECOND, jobs, k),
                                          durationsMs[d] * 1_000_000)
  {
    ProductAt(durationsMs, ccas, d, c);
    LaunchedAt(ts, 2 * SECOND, TcpJobs(Product(durationsMs, ccas), order), ["tcp", "owd-icmp", "owd-udp"], k, i);
  }

  lemma {:induction false} QuicLaunchedAt(ts: int, durationsMs: seq<nat>, order: seq<nat>, k: nat)
    requires Draws(order, |durationsMs|) && k < |Fitting(ts, SECOND, TimedJobs([], durationsMs, order))|
    ensures var jobs := TimedJobs([], durationsMs, order);
            var added := Procedure(ts, Fitting(ts, SECOND, jobs), ["quic"]);
            && k < |jobs| == |order| && k < |added|
            && added[k] == Client("quic", [], StartOf(ts + SECOND, SECOND, jobs, k), durationsMs[order[k]] * 1_000_000)
  {
    LaunchedAt(ts, SECOND, TimedJobs([], durationsMs, order), ["quic"], k, 0);
    assert k * 1 + 0 == k;
  }

  /** Every rate drawn is run at the durations drawn for it. */
  lemma {:induction false} RateRoundAt(ratesMbps: seq<nat>, rateOrder: seq<nat>, durationsMs: seq<nat>,
                                       orders: seq<seq<nat>>, r: nat, k: nat)
    requires Draws(rateOrder, |ratesMbps|) && |orders| == |rateOrder|
    requires forall o <- orders :: Draws(o, |durationsMs|)
    requires r < |rateOrder| && k < |orders[r]|
    ensures var rounds := RateRounds(ratesMbps, rateOrder, durationsMs, orders);
            && |rounds| == |rateOrder| && |rounds[r]| == |orders[r]| && orders[r] in orders
            && rounds[r][k] == Job([ratesMbps[rateOrder[r]]], durationsMs[orders[r][k]] * 1_000_000)
  {
  }

  /** Bursts of 10000 packets up and 3000 down, padded as drawn, get four seconds
      each, one group after the other. */
  lemma {:induction false} BurstLaunchedAt(ts: int, uplink: bool, order: seq<nat>, runs: nat, k: nat, i: nat)
    requires Draws(order, 3) && k < |Fitting(ts, 0, BurstJobs(uplink, order))| && i < runs
    ensures var added := Procedure(ts, Fitting(ts, 0, BurstJobs(uplink, order)), seq(runs, j => "burst"));
            && k < |order| && k * runs + i < |added|
            && added[k * runs + i] == Client("burst", [if uplink then 10000 else 3000, 700 * order[k]],
                                             ts + 1_000_000_000 + 4_000_000_000 * k, 4_000_000_000)
  {
    var jobs, kinds := BurstJobs(uplink, order), seq(runs, j => "burst");
    LaunchedAt(ts, 0, jobs, kinds, k, i);
    BurstStart(ts + SECOND, jobs, k);
  }

  lemma {:induction false} BurstStart(first: int, jobs: seq<Job>, k: nat)
    requires k <= |jobs| && forall i :: 0 <= i < |jobs| ==> jobs[i].duration == 4 * SECOND
    ensures StartOf(first, 0, jobs, k) == first + 4_000_000_000 * k
  {
    if k > 0 {
      BurstStart(first, jobs, k - 1);
    }
  }
}
