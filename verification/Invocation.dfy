/** One invocation from launch to final manifest: the goroutines of the launched
    clients, the finishing procedure that waits for them, gathers and seals, and a
    context that may be cancelled at any moment, in every interleaving. */
module Invocation {
  import opened Basics
  import opened Execution

  datatype Work = Idle | Active | Done(ok: bool)

  /** A client with its record and what its Run and Gather have returned so far. */
  datatype Test = Test(record: Measurement, launched: bool, run: Work, gather: Work)

  /** Where the finishing procedure stands. */
  datatype Phase =
    | Setup | Entered | Waiting | Waited | Aborting | Gathering | Logging | Finalizing | Writing | Returned

  datatype State = State(
    ctxErr: bool, started: bool, phase: Phase, tests: seq<Test>, manifest: Manifest, resultErr: bool)

  datatype Step =
    | Cancel
    | RunBegin(i: nat) | RunEnd(i: nat, ok: bool)
    | LogSetup(ok: bool) | CheckStarted | WaitDone | CheckCancelled | AbortDone(ok: bool)
    | GatherEnd(i: nat, ok: bool) | GatherDone | ServerLog(ok: bool) | Seal | WriteInfo(ok: bool)

  ghost predicate Init(s: State) {
    && s.phase == Setup && !s.resultErr && s.manifest.status != Complete
    && (forall t <- s.tests :: t.record == DESCRIBED && t.run == Idle && t.gather == Idle)
    && (!s.started ==> forall t <- s.tests :: !t.launched)
  }

  // ----- Steps on one record -----

  function Began(t: Test): Test { t.(record := t.record.(status := Running), run := Active) }

  function Ended(t: Test, ok: bool, ctxErr: bool): Test {
    var r := t.record;
    var r' := if ok then r.(status := Ran)
              else r.(status := if ctxErr then Cancelled else Failed, errors := r.errors + [Failure("client", "run")]);
    t.(record := r', run := Done(ok))
  }

  function GatheredRecord(r: Measurement, ok: bool): Measurement {
    if ok then r.(gathered := GatherComplete, status := if r.status.Ran? then Complete else r.status)
    else r.(gathered := GatherFailed, status := if r.status.Cancelled? then Cancelled else Failed,
            errors := r.errors + [Failure("client", "gather")])
  }

  function Gathered(t: Test, ok: bool): Test { t.(record := GatheredRecord(t.record, ok), gather := Done(ok)) }

  // ----- Steps of the finishing procedure -----

  predicate Has(s: State, i: nat) { i < |s.tests| }

  predicate RunsOver(s: State) { forall t <- s.tests :: t.launched ==> t.run.Done? }

  predicate RunFailed(s: State) { exists t <- s.tests :: t.launched && t.run == Done(false) }

  predicate GathersOver(s: State) { forall t <- s.tests :: t.gather.Done? }

  predicate GatherFault(s: State) { exists t <- s.tests :: t.gather == Done(false) }

  function WithError(m: Manifest, e: Failure): Manifest { m.(errors := m.errors + [e]) }

  /** An error is recorded in the manifest and joined to the result. */
  function Fault(s: State, fails: bool, endpoint: string, phase: string): State {
    if fails then s.(manifest := WithError(s.manifest, Failure(endpoint, phase)), resultErr := true) else s
  }

  function Records(tests: seq<Test>): (r: seq<Measurement>)
    ensures |r| == |tests| && forall i :: 0 <= i < |r| ==> r[i] == tests[i].record
  {
    seq(|tests|, i requires 0 <= i < |tests| => tests[i].record)
  }

  function SealedTest(t: Test, ctxErr: bool): Test { if ctxErr then t.(record := Sealed(t.record)) else t }

  function SealedTests(tests: seq<Test>, ctxErr: bool): (r: seq<Test>)
    ensures |r| == |tests|
    ensures forall i :: 0 <= i < |r| ==> r[i] == SealedTest(tests[i], ctxErr)
  {
    seq(|tests|, i requires 0 <= i < |tests| => SealedTest(tests[i], ctxErr))
  }

  function DoSeal(s: State): State {
    s.(phase := Writing, tests := SealedTests(s.tests, s.ctxErr),
       manifest := s.manifest.(status := FinalStatus(s.manifest, Records(s.tests), s.ctxErr)))
  }

  function DoWrite(s: State, ok: bool): State {
    var s' := Fault(s, !ok, "client", "manifest_final");
    s'.(phase := Returned,
        manifest := s'.manifest.(status := if ok || s'.manifest.status.Cancelled? then s'.manifest.status else Failed))
  }

  predicate Enabled(s: State, a: Step) {
    match a
    case Cancel => true
    case RunBegin(i) => s.started && Has(s, i) && s.tests[i].launched && s.tests[i].run.Idle?
    case RunEnd(i, _) => Has(s, i) && s.tests[i].run.Active?
    case LogSetup(_) => s.phase.Setup?
    case CheckStarted => s.phase.Entered?
    case WaitDone => s.phase.Waiting? && RunsOver(s)
    case CheckCancelled => s.phase.Waited?
    case AbortDone(_) => s.phase.Aborting?
    case GatherEnd(i, _) => s.phase.Gathering? && Has(s, i) && s.tests[i].gather.Idle?
    case GatherDone => s.phase.Gathering? && GathersOver(s)
    case ServerLog(_) => s.phase.Logging?
    case Seal => s.phase.Finalizing?
    case WriteInfo(_) => s.phase.Writing?
  }

  function Apply(s: State, a: Step): State
    requires Enabled(s, a)
  {
    match a
    case Cancel => s.(ctxErr := true)
    case RunBegin(i) => s.(tests := s.tests[i := Began(s.tests[i])])
    case RunEnd(i, ok) => s.(tests := s.tests[i := Ended(s.tests[i], ok, s.ctxErr)])
    case LogSetup(ok) => Fault(s, !ok, "client", "log_setup").(phase := Entered)
    case CheckStarted =>
      if s.started then s.(phase := Waiting)
      else s.(phase := Finalizing, resultErr := s.resultErr || s.manifest.errors != [])
    case WaitDone => Fault(s, RunFailed(s), "client", "run").(phase := Waited)
    case CheckCancelled => if s.ctxErr then s.(phase := Aborting, resultErr := true) else s.(phase := Gathering)
    case AbortDone(ok) =>
      s.(phase := Finalizing, manifest := if ok then s.manifest else WithError(s.manifest, Failure("server", "abort")))
    case GatherEnd(i, ok) => s.(tests := s.tests[i := Gathered(s.tests[i], ok)])
    case GatherDone => Fault(s, GatherFault(s), "client", "gather").(phase := Logging)
    case ServerLog(ok) => Fault(s, !ok, "server", "server_log").(phase := Finalizing)
    case Seal => DoSeal(s)
    case WriteInfo(ok) => DoWrite(s, ok)
  }

  predicate Next(s: State, a: Step, s': State) { Enabled(s, a) && s' == Apply(s, a) }

  ghost predicate IsRun(states: seq<State>, steps: seq<Step>) {
    && |states| == |steps| + 1
    && Init(states[0])
    && forall k {:trigger steps[k]} :: 0 <= k < |steps| ==> Next(states[k], steps[k], states[k + 1])
  }

  // ----- Invariant -----

  predicate Late(p: Phase) { !p.Setup? && !p.Entered? && !p.Waiting? }

  predicate MayGather(p: Phase) { p.Gathering? || p.Logging? || p.Finalizing? || p.Writing? || p.Returned? }

  /** A record's status never claims more than its Run and Gather returned. */
  predicate Honest(t: Test) {
    && (!t.launched ==> t.run == Idle) && t.gather != Active
    && (t.launched && t.run == Idle ==> t.record == DESCRIBED && t.gather == Idle)
    && (t.run == Active <==> t.record.status == Running)
    && (t.run == Active ==> t.gather == Idle)
    && (t.record.status == Scheduled ==> t.run == Idle)
    && (t.record.status == Ran ==> t.run == Done(true) && t.gather == Idle)
    && (t.record.status == Complete ==> t.run == Done(true) && t.gather == Done(true))
    && (t.run == Done(false) || t.gather == Done(false) ==> t.record.status == Failed || t.record.status == Cancelled)
    && t.record.errors == Errors(t.run, t.gather)
    && (t.record.gathered == GatherComplete <==> t.gather == Done(true))
    && (t.record.gathered == GatherFailed <==> t.gather == Done(false))
  }

  /** What a client's record has to complain about. */
  function Errors(run: Work, gather: Work): seq<Failure> {
    (if run == Done(false) then [Failure("client", "run")] else []) +
    (if gather == Done(false) then [Failure("client", "gather")] else [])
  }

  predicate Placed(t: Test, p: Phase) {
    && (Late(p) && t.launched ==> t.run.Done?)
    && (t.gather != Idle ==> MayGather(p))
  }

  predicate TestsOk(s: State) {
    && (forall i :: 0 <= i < |s.tests| ==> Honest(s.tests[i]) && Placed(s.tests[i], s.phase))
    && (forall i :: 0 <= i < |s.tests| ==> s.tests[i].launched ==> s.started)
    && (forall i :: 0 <= i < |s.tests| ==> s.tests[i].record.status == Cancelled ==> s.ctxErr)
  }

  predicate AllComplete(tests: seq<Test>) {
    forall i :: 0 <= i < |tests| ==> tests[i].record.status == Complete
  }

  /** A complete manifest has a faultless invocation behind it. */
  predicate ManifestOk(s: State) {
    && (s.resultErr ==> s.manifest.errors != [] || s.ctxErr)
    && (s.manifest.status == Complete ==>
          (s.phase.Writing? || s.phase.Returned?) && s.manifest.errors == [] && !s.resultErr && AllComplete(s.tests))
  }

  predicate Inv(s: State) { TestsOk(s) && ManifestOk(s) }

  lemma {:induction false} InitInv(s: State)
    requires Init(s)
    ensures Inv(s)
  {
  }

  lemma {:induction false} RecordSteps(t: Test, ok: bool, ctxErr: bool)
    requires Honest(t)
    ensures t.launched && t.run == Idle ==> Honest(Began(t))
    ensures t.run == Active ==> Honest(Ended(t, ok, ctxErr))
    ensures t.gather == Idle && t.run != Active && (t.launched ==> t.run != Idle) ==> Honest(Gathered(t, ok))
    ensures t.run != Active && (t.launched ==> t.run != Idle) ==> Honest(t.(record := Sealed(t.record)))
  {
  }

  predicate OnTest(a: Step) { a.RunBegin? || a.RunEnd? || a.GatherEnd? }

  lemma {:induction false} TestStepKeepsTests(s: State, a: Step, s': State)
    requires TestsOk(s) && Next(s, a, s') && OnTest(a)
    ensures TestsOk(s')
  {
    RecordSteps(s.tests[a.i], if a.RunBegin? then true else a.ok, s.ctxErr);
  }

  lemma {:induction false} OtherStepKeepsTests(s: State, a: Step, s': State)
    requires TestsOk(s) && Next(s, a, s') && !OnTest(a)
    ensures TestsOk(s')
  {
    if a == Seal {
      SealKeepsTests(s);
    } else {
      assert s'.tests == s.tests;
      if a == WaitDone {
        assert forall i :: 0 <= i < |s.tests| ==> s.tests[i] in s.tests;
      }
    }
  }

  lemma {:induction false} SealKeepsTests(s: State)
    requires TestsOk(s) && s.phase.Finalizing?
    ensures TestsOk(DoSeal(s))
  {
    forall i | 0 <= i < |s.tests| ensures Honest(DoSeal(s).tests[i]) && Placed(DoSeal(s).tests[i], Writing) {
      RecordSteps(s.tests[i], true, s.ctxErr);
    }
  }

  lemma {:induction false} StepKeepsManifest(s: State, a: Step, s': State)
    requires Inv(s) && Next(s, a, s')
    ensures ManifestOk(s')
  {
    if a == Seal && s'.manifest.status == Complete {
      assert forall i :: 0 <= i < |s.tests| ==> Records(s.tests)[i] in Records(s.tests);
    }
  }

  lemma {:induction false} StepKeepsInv(s: State, a: Step, s': State)
    requires Inv(s) && Next(s, a, s')
    ensures Inv(s')
  {
    if OnTest(a) {
      TestStepKeepsTests(s, a, s');
    } else {
      OtherStepKeepsTests(s, a, s');
    }
    StepKeepsManifest(s, a, s');
  }

  lemma {:induction false} RunKeepsInv(states: seq<State>, steps: seq<Step>, k: nat)
    requires IsRun(states, steps) && k < |states|
    ensures Inv(states[k])
  {
    if k == 0 {
      InitInv(states[0]);
    } else {
      RunKeepsInv(states, steps, k - 1);
      assert Next(states[k - 1], steps[k - 1], states[k - 1 + 1]);
      StepKeepsInv(states[k - 1], steps[k - 1], states[k]);
    }
  }

  // ----- What a complete manifest means -----

  /** In every interleaving: if the manifest ever says complete, every Run and
      every Gather returned nil, nothing was recorded as an error anywhere, and
      the finishing procedure has no error to return. */
  lemma {:induction false} CompleteMeansFaultless(states: seq<State>, steps: seq<Step>, k: nat)
    requires IsRun(states, steps) && k < |states| && states[k].manifest.status == Complete
    ensures forall t <- states[k].tests :: t.launched && t.run == Done(true) && t.gather == Done(true)
    ensures forall t <- states[k].tests :: t.record.errors == []
    ensures states[k].manifest.errors == [] && !states[k].resultErr
    ensures states[k].phase.Writing? || states[k].phase.Returned?
  {
    RunKeepsInv(states, steps, k);
    var s := states[k];
    forall i | 0 <= i < |s.tests|
      ensures s.tests[i].launched && s.tests[i].run == Done(true) && s.tests[i].gather == Done(true)
      ensures s.tests[i].record.errors == []
    {
      assert Honest(s.tests[i]) && s.tests[i].record.status == Complete;
    }
  }

  lemma {:induction false} FailureStays(s: State, a: Step, s': State, i: nat)
    requires Inv(s) && Next(s, a, s') && i < |s.tests|
    ensures |s'.tests| == |s.tests|
    ensures s.tests[i].record.status.Failed? || s.tests[i].record.status.Cancelled? ==>
              s'.tests[i].record.status == s.tests[i].record.status
  {
    assert Honest(s.tests[i]);
  }

  /** A failed or cancelled record keeps that status for the rest of the run. */
  lemma {:induction false} FailureIsFinal(states: seq<State>, steps: seq<Step>, k: nat, l: nat, i: nat)
    requires IsRun(states, steps) && k <= l < |states| && i < |states[k].tests|
    requires states[k].tests[i].record.status.Failed? || states[k].tests[i].record.status.Cancelled?
    ensures |states[l].tests| == |states[k].tests|
    ensures states[l].tests[i].record.status == states[k].tests[i].record.status
  {
    if k < l {
      FailureIsFinal(states, steps, k, l - 1, i);
      RunKeepsInv(states, steps, l - 1);
      assert Next(states[l - 1], steps[l - 1], states[l - 1 + 1]);
      FailureStays(states[l - 1], steps[l - 1], states[l], i);
    }
  }

  /** A failed Run is on record for the rest of the invocation, as cancelled exactly
      if the context had ended when it returned. */
  lemma {:induction false} FailedRunIsRecorded(states: seq<State>, steps: seq<Step>, k: nat, l: nat, i: nat)
    requires IsRun(states, steps) && k < l < |states| && steps[k] == RunEnd(i, false)
    ensures i < |states[l].tests|
    ensures states[l].tests[i].record.status == if states[k].ctxErr then Cancelled else Failed
    ensures Failure("client", "run") in states[l].tests[i].record.errors
  {
    assert Next(states[k], steps[k], states[k + 1]);
    FailureIsFinal(states, steps, k + 1, l, i);
    FailedRunStays(states, steps, k + 1, l, i);
    RunKeepsInv(states, steps, l);
    assert Honest(states[l].tests[i]);
  }

  lemma {:induction false} FailedRunStays(states: seq<State>, steps: seq<Step>, k: nat, l: nat, i: nat)
    requires IsRun(states, steps) && k <= l < |states| && i < |states[k].tests| && states[k].tests[i].run == Done(false)
    ensures i < |states[l].tests| && states[l].tests[i].run == Done(false)
  {
    if k < l {
      FailedRunStays(states, steps, k, l - 1, i);
      assert Next(states[l - 1], steps[l - 1], states[l - 1 + 1]);
      FailedRunStep(states[l - 1], steps[l - 1], states[l], i);
    }
  }

  lemma {:induction false} FailedRunStep(s: State, a: Step, s': State, i: nat)
    requires Next(s, a, s') && i < |s.tests| && s.tests[i].run == Done(false)
    ensures i < |s'.tests| && s'.tests[i].run == Done(false)
  {
  }

  /** No record is still open once a cancelled invocation is sealed. */
  lemma {:induction false} CancelledLeavesNoneOpen(states: seq<State>, steps: seq<Step>, k: nat)
    requires IsRun(states, steps) && k < |states| && CancelledAtSeal(states, steps, k)
    ensures Sealing(states[k].phase) && NoneOpen(states[k])
  {
    assert Next(states[k - 1], steps[k - 1], states[k - 1 + 1]);
    if steps[k - 1] == Seal && states[k - 1].ctxErr {
      SealClosesAll(states[k - 1]);
    } else {
      CancelledLeavesNoneOpen(states, steps, k - 1);
      RunKeepsInv(states, steps, k - 1);
      SealedStaysClosed(states[k - 1], steps[k - 1], states[k]);
    }
  }

  predicate NoneOpen(s: State) { forall i :: 0 <= i < |s.tests| ==> IsOver(s.tests[i].record.status) }

  lemma {:induction false} SealClosesAll(s: State)
    requires s.phase.Finalizing? && s.ctxErr
    ensures NoneOpen(DoSeal(s))
  {
  }

  lemma {:induction false} SealedStaysClosed(s: State, a: Step, s': State)
    requires Inv(s) && Next(s, a, s') && Sealing(s.phase) && NoneOpen(s)
    ensures Sealing(s'.phase) && NoneOpen(s')
  {
    if OnTest(a) {
      assert false;
    }
  }

  /** What a step has to add to the errors of the manifest. */
  function Report(s: State, a: Step): seq<Failure> {
    match a
    case LogSetup(ok) => if ok then [] else [Failure("client", "log_setup")]
    case WaitDone => if RunFailed(s) then [Failure("client", "run")] else []
    case AbortDone(ok) => if ok then [] else [Failure("server", "abort")]
    case GatherDone => if GatherFault(s) then [Failure("client", "gather")] else []
    case ServerLog(ok) => if ok then [] else [Failure("server", "server_log")]
    case WriteInfo(ok) => if ok then [] else [Failure("client", "manifest_final")]
    case _ => []
  }

  function Reports(states: seq<State>, steps: seq<Step>, k: nat): seq<Failure>
    requires |states| == |steps| + 1 && k < |states|
  {
    if k == 0 then [] else Reports(states, steps, k - 1) + Report(states[k - 1], steps[k - 1])
  }

  /** The manifest lists every reported failure, in order, and nothing else. */
  lemma {:induction false} ManifestListsAll(states: seq<State>, steps: seq<Step>, k: nat)
    requires IsRun(states, steps) && k < |states|
    ensures states[k].manifest.errors == states[0].manifest.errors + Reports(states, steps, k)
  {
    if k > 0 {
      ManifestListsAll(states, steps, k - 1);
      assert Next(states[k - 1], steps[k - 1], states[k - 1 + 1]);
      ReportStep(states[k - 1], steps[k - 1], states[k]);
    }
  }

  lemma {:induction false} ReportStep(s: State, a: Step, s': State)
    requires Next(s, a, s')
    ensures s'.manifest.errors == s.manifest.errors + Report(s, a)
  {
  }

  // ----- When nil is returned -----

  predicate AfterGather(p: Phase) { p.Logging? || p.Finalizing? }

  predicate Sealing(p: Phase) { p.Writing? || p.Returned? }

  predicate TightTest(t: Test, p: Phase, resultErr: bool) {
    && t.launched
    && (t.run == Done(true) && t.gather == Idle && !Sealing(p) ==> t.record.status == Ran)
    && (t.run == Done(true) && t.gather == Done(true) ==> t.record.status == Complete)
    && (t.run == Done(false) && Late(p) ==> resultErr)
    && (AfterGather(p) && !resultErr ==> t.gather == Done(true))
  }

  /** Every failure of a fully launched invocation is on its way into the result,
      wherever a cancellation falls. */
  predicate Tight(s: State) {
    && s.started
    && (s.manifest.errors != [] || s.phase.Aborting? ==> s.resultErr)
    && (forall i :: 0 <= i < |s.tests| ==> TightTest(s.tests[i], s.phase, s.resultErr))
    && (Sealing(s.phase) && !s.resultErr ==> s.manifest.status == Complete || s.manifest.status == Cancelled)
  }

  lemma {:induction false} StepKeepsTight(s: State, a: Step, s': State)
    requires Inv(s) && Tight(s) && Next(s, a, s')
    ensures Tight(s')
  {
    if OnTest(a) {
      TestStepKeepsTight(s, a, s');
    } else if a == Seal {
      SealTight(s);
    } else {
      assert s'.tests == s.tests;
      forall i | 0 <= i < |s.tests| ensures TightTest(s'.tests[i], s'.phase, s'.resultErr) {
        assert s.tests[i] in s.tests && Honest(s.tests[i]) && Placed(s.tests[i], s.phase);
        assert TightTest(s.tests[i], s.phase, s.resultErr);
      }
    }
  }

  lemma {:induction false} TestStepKeepsTight(s: State, a: Step, s': State)
    requires Inv(s) && Tight(s) && Next(s, a, s') && OnTest(a)
    ensures Tight(s')
  {
    assert Honest(s.tests[a.i]) && Placed(s.tests[a.i], s.phase) && TightTest(s.tests[a.i], s.phase, s.resultErr);
  }

  lemma {:induction false} SealTight(s: State)
    requires Inv(s) && Tight(s) && s.phase.Finalizing?
    ensures Tight(DoSeal(s))
  {
    forall i | 0 <= i < |s.tests|
      ensures TightTest(DoSeal(s).tests[i], Writing, s.resultErr)
      ensures !s.resultErr ==> s.tests[i].record.status == Complete
    {
      assert Placed(s.tests[i], s.phase) && TightTest(s.tests[i], s.phase, s.resultErr);
    }
  }

  /** All clients were launched and nothing had gone wrong before. */
  ghost predicate FullyLaunched(s: State) {
    s.started && s.manifest.errors == [] && forall t <- s.tests :: t.launched
  }

  lemma {:induction false} RunKeepsTight(states: seq<State>, steps: seq<Step>, k: nat)
    requires IsRun(states, steps) && k < |states| && FullyLaunched(states[0])
    ensures Tight(states[k])
  {
    if k > 0 {
      RunKeepsTight(states, steps, k - 1);
      RunKeepsInv(states, steps, k - 1);
      assert Next(states[k - 1], steps[k - 1], states[k - 1 + 1]);
      StepKeepsTight(states[k - 1], steps[k - 1], states[k]);
    }
  }

  /** The context had ended when the manifest was sealed. */
  ghost predicate CancelledAtSeal(states: seq<State>, steps: seq<Step>, k: nat)
    requires |states| == |steps| + 1 && k < |states|
  {
    exists l :: 0 <= l < k && steps[l] == Seal && states[l].ctxErr
  }

  lemma {:induction false} SealedForGood(states: seq<State>, steps: seq<Step>, l: nat, k: nat)
    requires IsRun(states, steps) && l < k < |states| && steps[l] == Seal
    ensures Sealing(states[k].phase)
  {
    assert Next(states[k - 1], steps[k - 1], states[k - 1 + 1]);
    if l < k - 1 {
      SealedForGood(states, steps, l, k - 1);
    }
  }

  /** A sealed manifest says cancelled exactly if the context had ended by then. */
  lemma {:induction false} SealDecides(states: seq<State>, steps: seq<Step>, k: nat)
    requires IsRun(states, steps) && k < |states| && Sealing(states[k].phase)
    ensures states[k].manifest.status == Cancelled <==> CancelledAtSeal(states, steps, k)
  {
    SealRunStep(states, steps, k);
    if steps[k - 1] == Seal {
      NotSealedYet(states, steps, k - 1);
    } else {
      SealDecides(states, steps, k - 1);
    }
    SealOneLater(states, steps, k);
  }

  lemma {:induction false} SealRunStep(states: seq<State>, steps: seq<Step>, k: nat)
    requires IsRun(states, steps) && k < |states| && Sealing(states[k].phase)
    ensures k > 0
    ensures if steps[k - 1] == Seal
            then states[k - 1].phase.Finalizing? && (states[k].manifest.status == Cancelled <==> states[k - 1].ctxErr)
            else Sealing(states[k - 1].phase) &&
                 (states[k].manifest.status == Cancelled <==> states[k - 1].manifest.status == Cancelled)
  {
    assert Next(states[k - 1], steps[k - 1], states[k - 1 + 1]);
    SealStep(states[k - 1], steps[k - 1], states[k]);
  }

  lemma {:induction false} SealOneLater(states: seq<State>, steps: seq<Step>, k: nat)
    requires |states| == |steps| + 1 && 0 < k < |states|
    ensures CancelledAtSeal(states, steps, k) <==>
            CancelledAtSeal(states, steps, k - 1) || (steps[k - 1] == Seal && states[k - 1].ctxErr)
  {
    if CancelledAtSeal(states, steps, k) {
      var l :| 0 <= l < k && steps[l] == Seal && states[l].ctxErr;
      assert l < k - 1 || l == k - 1;
    }
  }

  lemma {:induction false} NotSealedYet(states: seq<State>, steps: seq<Step>, k: nat)
    requires IsRun(states, steps) && k < |states| && states[k].phase.Finalizing?
    ensures !CancelledAtSeal(states, steps, k)
  {
    if CancelledAtSeal(states, steps, k) {
      var l :| 0 <= l < k && steps[l] == Seal && states[l].ctxErr;
      SealedForGood(states, steps, l, k);
    }
  }

  lemma {:induction false} SealStep(s: State, a: Step, s': State)
    requires Next(s, a, s') && Sealing(s'.phase)
    ensures if a == Seal then s.phase.Finalizing? && (s'.manifest.status == Cancelled <==> s.ctxErr)
            else Sealing(s.phase) && (s'.manifest.status == Cancelled <==> s.manifest.status == Cancelled)
  {
  }

  /** For every run of a fully launched invocation, wherever a cancellation falls:
      the manifest says complete exactly if nil is returned and the context was
      still alive when it was sealed. So nil with a live context means complete,
      nil after a late cancellation comes with "cancelled", and a cancellation
      after the seal changes nothing. */
  lemma {:induction false} CompleteExactlyIfNilAndAlive(states: seq<State>, steps: seq<Step>, k: nat)
    requires IsRun(states, steps) && k < |states| && states[k].phase.Returned? && FullyLaunched(states[0])
    ensures states[k].manifest.status == Complete <==> !states[k].resultErr && !CancelledAtSeal(states, steps, k)
    ensures states[k].manifest.status == Cancelled <==> CancelledAtSeal(states, steps, k)
  {
    RunKeepsTight(states, steps, k);
    RunKeepsInv(states, steps, k);
    SealDecides(states, steps, k);
  }

  /** A step that has an error to report. */
  predicate Faulty(s: State, a: Step) {
    match a
    case LogSetup(ok) => !ok
    case CheckStarted => !s.started && s.manifest.errors != []
    case WaitDone => RunFailed(s)
    case CheckCancelled => s.ctxErr
    case GatherDone => GatherFault(s)
    case ServerLog(ok) => !ok
    case WriteInfo(ok) => !ok
    case _ => false
  }

  /** Nil is returned exactly if no step on the way had an error to report: an
      error, once joined, is never lost. */
  lemma {:induction false} NilExactlyIfNoFault(states: seq<State>, steps: seq<Step>, k: nat)
    requires IsRun(states, steps) && k < |states|
    ensures states[k].resultErr <==> FaultBefore(states, steps, k)
  {
    if k > 0 {
      NilExactlyIfNoFault(states, steps, k - 1);
      assert Next(states[k - 1], steps[k - 1], states[k - 1 + 1]);
      FaultStep(states[k - 1], steps[k - 1], states[k]);
      OneStepLater(states, steps, k);
    }
  }

  ghost predicate FaultBefore(states: seq<State>, steps: seq<Step>, k: nat)
    requires |states| == |steps| + 1 && k < |states|
  {
    exists l :: 0 <= l < k && Faulty(states[l], steps[l])
  }

  lemma {:induction false} OneStepLater(states: seq<State>, steps: seq<Step>, k: nat)
    requires |states| == |steps| + 1 && 0 < k < |states|
    ensures FaultBefore(states, steps, k) <==> FaultBefore(states, steps, k - 1) || Faulty(states[k - 1], steps[k - 1])
  {
    if FaultBefore(states, steps, k) {
      var l :| 0 <= l < k && Faulty(states[l], steps[l]);
      assert l < k - 1 || l == k - 1;
    }
  }

  lemma {:induction false} FaultStep(s: State, a: Step, s': State)
    requires Next(s, a, s')
    ensures s'.resultErr <==> s.resultErr || Faulty(s, a)
  {
  }

  lemma {:induction false} Extend(states: seq<State>, steps: seq<Step>, a: Step)
    returns (states': seq<State>, steps': seq<Step>)
    requires IsRun(states, steps) && Enabled(states[|steps|], a)
    ensures IsRun(states', steps') && states'[0] == states[0]
    ensures |steps'| == |steps| + 1 && states'[|steps'|] == Apply(states[|steps|], a)
  {
    states', steps' := states + [Apply(states[|steps|], a)], steps + [a];
  }

  /** An invocation without clients in which nothing goes wrong. */
  lemma {:induction false} ReachFinalizing() returns (states: seq<State>, steps: seq<Step>)
    ensures IsRun(states, steps) && FullyLaunched(states[0])
    ensures states[|steps|] == State(false, true, Finalizing, [], Manifest(Running, []), false)
  {
    states, steps := [State(false, true, Setup, [], Manifest(Running, []), false)], [];
    states, steps := Extend(states, steps, LogSetup(true));
    states, steps := Extend(states, steps, CheckStarted);
    states, steps := Extend(states, steps, WaitDone);
    states, steps := Extend(states, steps, CheckCancelled);
    states, steps := Extend(states, steps, GatherDone);
    states, steps := Extend(states, steps, ServerLog(true));
  }

  /** Both late cancellations happen: after the check for it, a run can return nil
      with a cancelled manifest, and after the seal with a complete one. */
  lemma {:induction false} LateCancellations(afterSeal: bool) returns (states: seq<State>, steps: seq<Step>)
    ensures IsRun(states, steps) && FullyLaunched(states[0])
    ensures var s := states[|steps|];
            && s.phase.Returned? && s.ctxErr && !s.resultErr
            && s.manifest.status == if afterSeal then Complete else Cancelled
  {
    states, steps := ReachFinalizing();
    if afterSeal {
      states, steps := Extend(states, steps, Seal);
      states, steps := Extend(states, steps, Cancel);
    } else {
      states, steps := Extend(states, steps, Cancel);
      states, steps := Extend(states, steps, Seal);
    }
    states, steps := Extend(states, steps, WriteInfo(true));
  }

  /** Until it has returned, the finishing procedure or a client it waits for can
      take a step. */
  lemma {:induction false} NeverStuck(s: State) returns (a: Step)
    requires Inv(s) && !s.phase.Returned?
    ensures a != Cancel && Enabled(s, a)
  {
    match s.phase
    case Setup => a := LogSetup(true);
    case Entered => a := CheckStarted;
    case Waited => a := CheckCancelled;
    case Aborting => a := AbortDone(true);
    case Logging => a := ServerLog(true);
    case Finalizing => a := Seal;
    case Writing => a := WriteInfo(true);
    case Waiting =>
      a := WaitDone;
      if !RunsOver(s) {
        var i :| 0 <= i < |s.tests| && s.tests[i].launched && !s.tests[i].run.Done?;
        a := if s.tests[i].run.Idle? then RunBegin(i) else RunEnd(i, true);
      }
    case Gathering =>
      a := GatherDone;
      if !GathersOver(s) {
        var i :| 0 <= i < |s.tests| && !s.tests[i].gather.Done?;
        a := GatherEnd(i, true);
      }
  }

  // ----- Why gathering has to wait -----

  /** A record through any gathers, in order. */
  function GatheredAll(t: Test, oks: seq<bool>): Test {
    if |oks| == 0 then t else Gathered(GatheredAll(t, oks[..|oks| - 1]), oks[|oks| - 1])
  }

  function Overlapped(t: Test, before: seq<bool>, ok: bool, after: seq<bool>): Test {
    GatheredAll(Ended(GatheredAll(Began(t), before), ok, false), after)
  }

  predicate AllOk(oks: seq<bool>) { forall i :: 0 <= i < |oks| ==> oks[i] }

  lemma {:induction false} GathersWhileRunning(t: Test, oks: seq<bool>)
    requires t.record == Measurement(Running, NotGathered, [])
    ensures var r := GatheredAll(t, oks).record;
            (r.errors == [] <==> AllOk(oks)) && (r.status == if AllOk(oks) then Running else Failed)
  {
    if |oks| > 0 {
      GathersWhileRunning(t, oks[..|oks| - 1]);
      assert AllOk(oks) <==> AllOk(oks[..|oks| - 1]) && oks[|oks| - 1];
    }
  }

  lemma {:induction false} GathersAfterRun(t: Test, oks: seq<bool>)
    requires t.record.status == Ran || t.record.status == Failed
    ensures var r := GatheredAll(t, oks).record;
            && (r.errors == [] <==> t.record.errors == [] && AllOk(oks))
            && (t.record.status == Ran ==>
                  r.status == if |oks| == 0 then Ran else if AllOk(oks) then Complete else Failed)
            && (t.record.status == Failed ==> r.status == Failed)
  {
    if |oks| > 0 {
      GathersAfterRun(t, oks[..|oks| - 1]);
      assert AllOk(oks) <==> AllOk(oks[..|oks| - 1]) && oks[|oks| - 1];
    }
  }

  /** If gathers were allowed while a client still runs, and repeated, a record
      could end up complete in spite of a recorded error: exactly if a gather
      failed before the run ended well and all of one or more later ones succeed. */
  lemma {:induction false} EarlyGatherForgets(t: Test, before: seq<bool>, ok: bool, after: seq<bool>)
    requires t.record == DESCRIBED
    ensures var r := Overlapped(t, before, ok, after).record;
            (r.status == Complete && r.errors != []) <==> (ok && !AllOk(before) && |after| > 0 && AllOk(after))
  {
    GathersWhileRunning(Began(t), before);
    GathersAfterRun(Ended(GatheredAll(Began(t), before), ok, false), after);
  }

  // ----- The finishing procedure as a program -----

  /** What its calls return, and when it finds the context ended. */
  datatype Outcomes = Outcomes(
    logOk: bool, waitOk: bool, cancelled: bool, abortOk: bool, gathers: seq<bool>, serverLogOk: bool,
    cancelledLater: bool, writeOk: bool)

  /** The failures that the finishing procedure has to put on record. */
  function Reported(o: Outcomes, started: bool): seq<Failure> {
    ReportedBefore(o, started) + ReportedLast(o)
  }

  function ReportedBefore(o: Outcomes, started: bool): seq<Failure> {
    (if o.logOk then [] else [Failure("client", "log_setup")]) + (if started then ReportedAfterWait(o) else [])
  }

  function ReportedLast(o: Outcomes): seq<Failure> {
    if o.writeOk then [] else [Failure("client", "manifest_final")]
  }

  lemma {:induction false} NothingReported(o: Outcomes)
    ensures !o.cancelled ==>
              (ReportedBefore(o, true) == [] <==> o.logOk && o.waitOk && AllOk(o.gathers) && o.serverLogOk)
    ensures ReportedLast(o) == [] <==> o.writeOk
  {
  }

  lemma {:induction false} ReportedAdds(base: seq<Failure>, o: Outcomes, started: bool)
    ensures base + ReportedBefore(o, started) + ReportedLast(o) == base + Reported(o, started)
  {
  }

  function ReportedAfterWait(o: Outcomes): seq<Failure> {
    (if o.waitOk then [] else [Failure("client", "run")]) +
    (if o.cancelled then (if o.abortOk then [] else [Failure("server", "abort")])
     else (if AllOk(o.gathers) then [] else [Failure("client", "gather")]) +
          (if o.serverLogOk then [] else [Failure("server", "server_log")]))
  }

  predicate AllFine(o: Outcomes) {
    o.logOk && o.waitOk && !o.cancelled && AllOk(o.gathers) && o.serverLogOk && o.writeOk
  }

  /** Every launched Run has returned nil, and nothing went wrong before. */
  ghost predicate RanCleanly(e: Executor)
    reads e
  {
    && e.started && (e.manifest.Some? ==> e.manifest.value.errors == [])
    && AllHave(e.records, Ran)
  }

  ghost predicate AllHave(records: seq<Measurement>, status: Status) {
    forall i :: 0 <= i < |records| ==> records[i].status == status
  }

  /** The records after one gather each. */
  ghost predicate AllGathered(before: seq<Measurement>, after: seq<Measurement>, gathers: seq<bool>) {
    && |before| == |after| == |gathers|
    && forall i :: 0 <= i < |after| ==> after[i] == GatheredRecord(before[i], gathers[i])
  }

  lemma {:induction false} GathersComplete(before: seq<Measurement>, after: seq<Measurement>, gathers: seq<bool>)
    requires AllGathered(before, after, gathers) && AllHave(before, Ran)
    ensures AllHave(after, Complete) <==> AllOk(gathers)
  {
    forall i | 0 <= i < |after| ensures after[i].status == Complete <==> gathers[i] {
      assert before[i].status == Ran;
    }
  }

  method GatherAll(e: Executor, gathers: seq<bool>) returns (ok: bool)
    requires |gathers| == |e.records|
    modifies e`records
    ensures ok <==> AllOk(gathers)
    ensures AllGathered(old(e.records), e.records, gathers)
  {
    ok := true;
    ghost var before := e.records;
    for i := 0 to |gathers|
      invariant |e.records| == |before| && (ok <==> AllOk(gathers[..i]))
      invariant forall j :: 0 <= j < i ==> e.records[j] == GatheredRecord(before[j], gathers[j])
      invariant forall j :: i <= j < |before| ==> e.records[j] == before[j]
    {
      assert AllOk(gathers[..i + 1]) <==> AllOk(gathers[..i]) && gathers[i];
      e.records := e.records[i := GatheredRecord(e.records[i], gathers[i])];
      ok := ok && gathers[i];
    }
    assert gathers[..|gathers|] == gathers;
  }

  /** Waiting is over; the work between that and the seal. Every failure is added to
      the manifest. */
  method AfterWait(e: Executor, o: Outcomes) returns (resultErr: bool)
    requires e.manifest.Some? && |o.gathers| == |e.records|
    modifies e`records, e`manifest
    ensures e.manifest.Some? && |e.records| == |old(e.records)|
    ensures e.manifest.value.status == old(e.manifest.value.status)
    ensures e.manifest.value.errors == old(e.manifest.value.errors) + ReportedAfterWait(o)
    ensures resultErr <==> !o.waitOk || o.cancelled || !AllOk(o.gathers) || !o.serverLogOk
    ensures !o.cancelled ==> AllGathered(old(e.records), e.records, o.gathers)
  {
    resultErr := !o.waitOk;
    if !o.waitOk {
      e.AddError(Failure("client", "run"));
    }
    if o.cancelled {
      if !o.abortOk {
        e.AddError(Failure("server", "abort"));
      }
      return true;
    }
    var ok := GatherAll(e, o.gathers);
    if !ok {
      e.AddError(Failure("client", "gather"));
      resultErr := true;
    }
    if !o.serverLogOk {
      e.AddError(Failure("server", "server_log"));
      resultErr := true;
    }
  }

  /** The seal and the final write. */
  method SealAndWrite(e: Executor, o: Outcomes, before: bool) returns (resultErr: bool)
    requires e.manifest.Some?
    modifies e`records, e`manifest
    ensures e.manifest.Some? && (resultErr <==> before || !o.writeOk)
    ensures e.manifest.value.errors == old(e.manifest.value.errors) + ReportedLast(o)
    ensures e.manifest.value.status == Cancelled <==> o.cancelled || o.cancelledLater
    ensures IsOver(e.manifest.value.status)
    ensures e.manifest.value.status == Complete ==> AllHave(e.records, Complete)
    ensures e.manifest.value.status == Complete <==>
              (&& o.writeOk && !o.cancelled && !o.cancelledLater && old(e.manifest.value.errors) == []
               && AllHave(old(e.records), Complete))
  {
    resultErr := before;
    e.Finalize(o.cancelled || o.cancelledLater);
    if !o.writeOk {
      e.AddError(Failure("client", "manifest_final"));
      if e.manifest.value.status != Cancelled {
        e.manifest := Some(e.manifest.value.(status := Failed));
      }
      resultErr := true;
    }
  }

  /** finishProcedureInvocation, given what its calls return. A complete manifest
      comes only with nil. If every Run returned nil, the procedure returns nil
      exactly if everything else went well too, and the manifest is complete exactly
      if moreover the context was alive at the seal. All failures are listed. */
  method FinishProcedureInvocation(e: Executor, o: Outcomes) returns (resultErr: bool)
    requires |o.gathers| == |e.records|
    modifies e`records, e`manifest
    ensures e.manifest.Some?
    ensures e.manifest.value.errors ==
              (if old(e.manifest).Some? then old(e.manifest).value.errors else []) + Reported(o, e.started)
    ensures e.manifest.value.status == Cancelled <==> o.cancelled || o.cancelledLater
    ensures IsOver(e.manifest.value.status)
    ensures e.manifest.value.status == Complete ==> !resultErr && e.manifest.value.errors == []
    ensures e.manifest.value.status == Complete ==> AllHave(e.records, Complete)
    ensures old(RanCleanly(e)) ==> (!resultErr <==> AllFine(o))
    ensures old(RanCleanly(e)) ==> (e.manifest.value.status == Complete <==> AllFine(o) && !o.cancelledLater)
  {
    resultErr := BeforeSeal(e, o);
    NothingReported(o);
    ReportedAdds(if old(e.manifest).Some? then old(e.manifest).value.errors else [], o, e.started);
    if old(RanCleanly(e)) && !o.cancelled {
      GathersComplete(old(e.records), e.records, o.gathers);
    }
    resultErr := SealAndWrite(e, o, resultErr);
  }

  /** Everything up to the seal. */
  method BeforeSeal(e: Executor, o: Outcomes) returns (resultErr: bool)
    requires |o.gathers| == |e.records|
    modifies e`records, e`manifest
    ensures e.manifest.Some? && |e.records| == |old(e.records)|
    ensures e.manifest.value.errors ==
              (if old(e.manifest).Some? then old(e.manifest).value.errors else []) + ReportedBefore(o, e.started)
    ensures resultErr ==> e.manifest.value.errors != [] || o.cancelled
    ensures e.started ==> (resultErr <==> !o.logOk || !o.waitOk || o.cancelled || !AllOk(o.gathers) || !o.serverLogOk)
    ensures e.started && !o.cancelled ==> AllGathered(old(e.records), e.records, o.gathers)
  {
    resultErr := !o.logOk;
    if e.manifest.None? {
      e.manifest := Some(Manifest(Running, []));
    }
    if !o.logOk {
      e.AddError(Failure("client", "log_setup"));
    }
    if !e.started {
      resultErr := resultErr || e.manifest.value.errors != [];
    } else {
      var failed := AfterWait(e, o);
      resultErr := resultErr || failed;
    }
  }
}
