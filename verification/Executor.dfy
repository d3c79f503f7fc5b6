/** Planning and launching the clients of one invocation, and sealing its manifest. */
module Execution {
  import opened Basics

  datatype Status = Scheduled | Running | Ran | Failed | Cancelled | Complete
  datatype GatherStatus = NotGathered | GatherFailed | GatherComplete

  /** Where and in which phase something went wrong. */
  datatype Failure = Failure(endpoint: string, phase: string)

  datatype Measurement = Measurement(status: Status, gathered: GatherStatus, errors: seq<Failure>)
  datatype Manifest = Manifest(status: Status, errors: seq<Failure>)

  /** What is run with which settings, when and for how long. */
  datatype Client = Client(kind: string, settings: seq<nat>, startAt: int, duration: nat)

  const DESCRIBED := Measurement(Scheduled, NotGathered, [])

  // ----- Launching -----

  /** What decides about launches: `launched` lists client indices in launch order. */
  datatype Plan = Plan(count: nat, dryRun: bool, deferStart: bool, started: bool, launched: seq<nat>)

  /** Everything a procedure may do with an executor, including changing its modes. */
  datatype Call = RunClient | Start | SetDryRun(b: bool) | SetDeferStart(b: bool)

  function AfterCall(p: Plan, c: Call): Plan {
    match c
    case RunClient =>
      if p.dryRun || p.deferStart then p.(count := p.count + 1)
      else p.(count := p.count + 1, started := true, launched := p.launched + [p.count])
    case Start =>
      if p.dryRun || p.started then p else p.(started := true, launched := p.launched + Upto(p.count))
    case SetDryRun(b) => p.(dryRun := b)
    case SetDeferStart(b) => p.(deferStart := b)
  }

  function AfterCalls(p: Plan, calls: seq<Call>): Plan {
    if |calls| == 0 then p else AfterCall(AfterCalls(p, calls[..|calls| - 1]), calls[|calls| - 1])
  }

  const NEW_PLAN := Plan(0, false, false, false, [])

  ghost predicate AtMostOnce(launched: seq<nat>) {
    forall i, j :: 0 <= i < j < |launched| ==> launched[i] != launched[j]
  }

  ghost predicate PlanOk(p: Plan) {
    && AtMostOnce(p.launched)
    && (forall i :: 0 <= i < |p.launched| ==> p.launched[i] < p.count)
    && (!p.started ==> p.launched == [])
  }

  lemma {:induction false} CallKeepsPlanOk(p: Plan, c: Call)
    requires PlanOk(p)
    ensures PlanOk(AfterCall(p, c))
  {
  }

  /** No sequence of calls, whatever modes are switched in between, launches a
      client twice. */
  lemma {:induction false} LaunchedAtMostOnce(calls: seq<Call>)
    ensures PlanOk(AfterCalls(NEW_PLAN, calls))
  {
    if |calls| > 0 {
      LaunchedAtMostOnce(calls[..|calls| - 1]);
      CallKeepsPlanOk(AfterCalls(NEW_PLAN, calls[..|calls| - 1]), calls[|calls| - 1]);
    }
  }

  /** A deferred plan of n clients: Start launches all of them in order. */
  lemma {:induction false} DeferredPlan(n: nat)
    ensures AfterCalls(NEW_PLAN, [SetDeferStart(true)] + seq(n, i => RunClient)) == Plan(n, false, true, false, [])
    ensures AfterCalls(NEW_PLAN, [SetDeferStart(true)] + seq(n, i => RunClient) + [Start])
         == Plan(n, false, true, true, Upto(n))
  {
    var calls := [SetDeferStart(true)] + seq(n, i => RunClient);
    if n == 0 {
      assert calls[..0] == [];
    } else {
      DeferredPlan(n - 1);
      assert calls[..|calls| - 1] == [SetDeferStart(true)] + seq(n - 1, i => RunClient);
    }
    assert (calls + [Start])[..|calls|] == calls;
  }

  /** Without deferring, every client is launched as soon as it is added; in a dry
      run none is, not even by Start. */
  lemma {:induction false} ImmediatePlan(n: nat)
    ensures AfterCalls(NEW_PLAN, seq(n, i => RunClient)) == Plan(n, false, false, n > 0, Upto(n))
    ensures AfterCalls(NEW_PLAN, [SetDryRun(true)] + seq(n, i => RunClient) + [Start])
         == Plan(n, true, false, false, [])
  {
    DryPlan(n);
    var dry := [SetDryRun(true)] + seq(n, i => RunClient);
    assert (dry + [Start])[..|dry|] == dry;
    if n > 0 {
      ImmediatePlan(n - 1);
      assert seq(n, i => RunClient)[..n - 1] == seq(n - 1, i => RunClient);
      assert Upto(n) == Upto(n - 1) + [n - 1];
    } else {
      assert Upto(0) == [];
    }
  }

  lemma {:induction false} DryPlan(n: nat)
    ensures AfterCalls(NEW_PLAN, [SetDryRun(true)] + seq(n, i => RunClient)) == Plan(n, true, false, false, [])
  {
    var calls := [SetDryRun(true)] + seq(n, i => RunClient);
    if n == 0 {
      assert calls[..0] == [];
    } else {
      DryPlan(n - 1);
      assert calls[..|calls| - 1] == [SetDryRun(true)] + seq(n - 1, i => RunClient);
    }
  }

  // ----- Sealing -----

  /** A status that nothing changes any more. */
  predicate IsOver(s: Status) { s.Failed? || s.Cancelled? || s.Complete? }

  /** Sealing leaves no record open, calls those that were open cancelled, and does
      not touch the others. */
  predicate Closes(before: Measurement, after: Measurement) {
    after == if IsOver(before.status) then before else before.(status := Cancelled)
  }

  function Sealed(r: Measurement): Measurement {
    if r.status.Scheduled? || r.status.Ran? || r.status.Running? then r.(status := Cancelled) else r
  }

  function FinalStatus(m: Manifest, records: seq<Measurement>, ctxErr: bool): Status {
    if ctxErr then Cancelled
    else if m.errors == [] && forall r <- records :: r.status.Complete? then Complete
    else Failed
  }

  /** The executor. Launches are logged; the launched work itself is concurrent
      and not part of this class. */
  class Executor {
    var clients: seq<Client>
    var records: seq<Measurement>
    var dryRun: bool
    var deferStart: bool
    var started: bool
    var manifest: Option<Manifest>
    ghost var launched: seq<nat>

    ghost function View(): Plan
      reads this
    {
      Plan(|clients|, dryRun, deferStart, started, launched)
    }

    ghost predicate Valid()
      reads this
    {
      |clients| == |records| && PlanOk(View())
    }

    constructor ()
      ensures Valid() && View() == NEW_PLAN && records == [] && manifest == None
    {
      clients, records, dryRun, deferStart, started, manifest, launched := [], [], false, false, false, None, [];
    }

    /** Adds a client with a fresh record, launching it unless in a mode that does not. */
    method RunClient(c: Client)
      requires Valid()
      modifies this
      ensures Valid() && View() == AfterCall(old(View()), Call.RunClient)
      ensures clients == old(clients) + [c] && records == old(records) + [DESCRIBED]
      ensures manifest == old(manifest)
    {
      clients := clients + [c];
      records := records + [DESCRIBED];
      if dryRun {
        return;
      }
      if !deferStart {
        Launch(|clients| - 1);
      }
    }

    method Launch(i: nat)
      requires i < |clients| && i !in launched
      modifies this`started, this`launched
      ensures started && launched == old(launched) + [i]
    {
      started := true;
      launched := launched + [i];
    }

    /** Launches everything planned so far, once. */
    method Start()
      requires Valid()
      modifies this`started, this`launched
      ensures Valid() && View() == AfterCall(old(View()), Call.Start)
    {
      if dryRun || started {
        return;
      }
      started := true;
      for i := 0 to |clients|
        invariant started && launched == Upto(i)
      {
        Launch(i);
      }
    }

    method AddError(e: Failure)
      modifies this`manifest
      ensures manifest == if old(manifest).None? then None
                          else Some(old(manifest).value.(errors := old(manifest).value.errors + [e]))
    {
      if manifest.Some? {
        manifest := Some(manifest.value.(errors := manifest.value.errors + [e]));
      }
    }

    /** Complete only without errors and with every record complete; a cancelled
        context overrides, and closes every record that is still open. */
    method Finalize(ctxErr: bool)
      modifies this`manifest, this`records
      ensures old(manifest).None? ==> manifest == None && records == old(records)
      ensures old(manifest).Some? ==>
                (var m := old(manifest).value;
                 && manifest == Some(m.(status := FinalStatus(m, old(records), ctxErr)))
                 && |records| == |old(records)|
                 && (!ctxErr ==> records == old(records))
                 && (ctxErr ==> forall i :: 0 <= i < |records| ==> Closes(old(records)[i], records[i])))
    {
      if manifest.None? {
        return;
      }
      var m := manifest.value;
      var status := Complete;
      if |m.errors| > 0 {
        status := Failed;
      }
      for i := 0 to |records|
        invariant status == if m.errors == [] && (forall j :: 0 <= j < i ==> records[j].status.Complete?) then Complete
                            else Failed
      {
        if records[i].status != Complete {
          status := Failed;
        }
      }
      if ctxErr {
        status := Cancelled;
        ghost var before := records;
        for i := 0 to |records|
          invariant |records| == |before|
          invariant forall j :: 0 <= j < i ==> records[j] == Sealed(before[j])
          invariant forall j :: i <= j < |records| ==> records[j] == before[j]
        {
          if records[i].status.Scheduled? || records[i].status.Ran? || records[i].status.Running? {
            records := records[i := records[i].(status := Cancelled)];
          }
        }
      }
      manifest := Some(m.(status := status));
    }
  }
}
