/** What clients of the server can rely on. Every statement is about one ID and
    assumes of that ID alone that it is used safely: whatever is done under other
    IDs, in any interleaving, does not matter while the process lives. */
module ServerGuarantees {
  import opened Basics
  import opened ServerProtocol
  import opened ServerInvariant

  lemma {:induction false} FreshIsSafe(s: State, a: Step, id: string)
    requires Named(s) && FreshFor(s, a, id)
    ensures SafeFor(s, a, id)
  {
    forall r | 0 <= r < |s.retrievers| && MayRemove(s, s.retrievers[r])
      ensures Names(s, ChannelOf(s.retrievers[r]), s.retrievers[r].id)
    {
    }
  }

  /** A client that generates fresh IDs never uses one before it is quiet. */
  lemma {:induction false} FreshRunIsSafe(states: seq<State>, steps: seq<Step>, id: string)
    requires FreshRun(states, steps, id)
    ensures SafeRun(states, steps, id)
  {
    forall k | 0 <= k < |steps| ensures SafeFor(states[k], steps[k], id) {
      RunKeepsNamed(states, steps, k);
      FreshIsSafe(states[k], steps[k], id);
    }
  }

  /** The step the goroutine of test i takes next, once its test has run. */
  function NextStep(t: Test, i: nat): Step
    requires !t.pc.Done?
  {
    match t.pc
    case Working => if t.kind.Serve? then Fetch(i) else CommandSend(i)
    case Fetched(_) => Send(i)
    case Sent(_) => Close(i)
    case Closed => Release(i)
    case Releasing(_) => CancelSelf(i)
    case EarlyReleasing(_) => EarlyCancel(i)
    case EarlySend => CommandSend(i)
  }

  /** No test ever blocks on its send, sends on or closes a closed channel, or
      gets stuck anywhere else: its next step is always possible. A test has sent
      exactly one result once it has passed its send, and none before. */
  lemma {:induction false} TestsNeverBlock(states: seq<State>, steps: seq<Step>, k: nat, i: nat)
    requires IsRun(states, steps) && k < |states| && i < |states[k].tests|
    requires AllSafe(states, steps, states[k].tests[i].id)
    ensures var t := states[k].tests[i];
            && (!t.pc.Done? ==> Enabled(states[k], NextStep(t, i))) && (t.pc.Done? ==> t.sends == 1)
            && t.sends <= 1 && !AboutToPanic(states[k], i)
  {
    RunKeepsInv(states, steps, k, states[k].tests[i].id);
    assert TestOk(states[k], i);
  }

  /** At most one retrieval per test succeeds. */
  lemma {:induction false} AtMostOneSuccess(states: seq<State>, steps: seq<Step>, k: nat, q: nat, r: nat)
    requires IsRun(states, steps) && k < |states| && q < r < |states[k].retrievers|
    requires AllSafe(states, steps, states[k].retrievers[q].id)
    requires Succeeded(states[k].retrievers[q]) && Succeeded(states[k].retrievers[r])
    ensures ChannelOf(states[k].retrievers[q]) != ChannelOf(states[k].retrievers[r])
  {
    var s := states[k];
    RunKeepsInv(states, steps, k, s.retrievers[q].id);
    assert RetrieverOk(s, s.retrievers[q]);
    assert Names(s, ChannelOf(s.retrievers[q]), s.retrievers[q].id);
    assert Names(s, ChannelOf(s.retrievers[r]), s.retrievers[r].id);
    assert s.retrievers[q].id == s.retrievers[r].id ==> !BothGot(s.retrievers[q], s.retrievers[r]);
  }

  ghost predicate HasWinner(s: State, c: nat) {
    exists r :: 0 <= r < |s.retrievers| && Succeeded(s.retrievers[r]) && ChannelOf(s.retrievers[r]) == Some(c)
  }

  /** Somebody succeeded in exactly the channels whose result was taken. */
  ghost predicate WinnersTook(s: State) {
    forall c :: 0 <= c < |s.chans| ==> (s.chans[c].taken <==> HasWinner(s, c))
  }

  /** No result is taken without being handed to a retrieval, in any run at all. */
  lemma {:induction false} TakenIsHandedOver(states: seq<State>, steps: seq<Step>, k: nat)
    requires IsRun(states, steps) && k < |states|
    ensures WinnersTook(states[k])
  {
    if k > 0 {
      TakenIsHandedOver(states, steps, k - 1);
      RunKeepsNamed(states, steps, k - 1);
      RunStep(states, steps, k - 1);
      WinnersStep(states[k - 1], steps[k - 1], states[k]);
    }
  }

  lemma {:induction false} WinnersStep(s: State, a: Step, s': State)
    requires Named(s) && WinnersTook(s) && Next(s, a, s')
    ensures WinnersTook(s')
  {
    if ByTest(a) {
      TestStepTakesNothing(s, a);
      SameWinners(s, s');
    } else if a.Register? {
      RegisterKeepsWinners(s, s');
    } else if a.Request? {
      RequestKeepsWinners(s, s');
    } else if a.Receive? {
      ReceiveKeepsWinners(s, a.r, s.retrievers[a.r].pc.c);
    } else if a.Remove? || a.LeaveOnShutdown? {
      MovedRetriever(s, s', a.r);
    } else {
      SameWinners(s, s');
    }
  }

  lemma {:induction false} TestStepTakesNothing(s: State, a: Step)
    requires Enabled(s, a) && ByTest(a)
    ensures var s' := Apply(s, a);
            && s'.retrievers == s.retrievers && |s'.chans| == |s.chans|
            && forall c :: 0 <= c < |s.chans| ==> s'.chans[c].taken == s.chans[c].taken
  {}

  lemma {:induction false} SameWinners(s: State, s': State)
    requires WinnersTook(s) && s'.retrievers == s.retrievers && |s'.chans| == |s.chans|
    requires forall c :: 0 <= c < |s.chans| ==> s'.chans[c].taken == s.chans[c].taken
    ensures WinnersTook(s')
  {
    forall c | 0 <= c < |s'.chans| ensures s'.chans[c].taken <==> HasWinner(s', c) {
      assert s.chans[c].taken <==> HasWinner(s, c);
    }
  }

  lemma {:induction false} RegisterKeepsWinners(s: State, s': State)
    requires Named(s) && WinnersTook(s) && s'.retrievers == s.retrievers
    requires s'.chans == s.chans || s'.chans == s.chans + [Chan(false, false, false)]
    ensures WinnersTook(s')
  {
    forall c | 0 <= c < |s'.chans| ensures s'.chans[c].taken <==> HasWinner(s', c) {
      if c < |s.chans| {
        assert s.chans[c].taken <==> HasWinner(s, c);
      } else {
        forall r | 0 <= r < |s.retrievers| ensures ChannelOf(s.retrievers[r]) != Some(c) {
          assert Names(s, ChannelOf(s.retrievers[r]), s.retrievers[r].id);
        }
      }
    }
  }

  lemma {:induction false} RequestKeepsWinners(s: State, s': State)
    requires WinnersTook(s) && s'.chans == s.chans && |s'.retrievers| == |s.retrievers| + 1
    requires s.retrievers <= s'.retrievers && !Succeeded(s'.retrievers[|s.retrievers|])
    ensures WinnersTook(s')
  {
    forall c | 0 <= c < |s'.chans| ensures s'.chans[c].taken <==> HasWinner(s', c) {
      assert s.chans[c].taken <==> HasWinner(s, c);
      WinnersCompare(s, s', c);
    }
  }

  lemma {:induction false} WinnersCompare(s: State, s': State, c: nat)
    requires |s.retrievers| <= |s'.retrievers|
    requires forall r :: 0 <= r < |s'.retrievers| ==>
               if r < |s.retrievers|
               then s'.retrievers[r] == s.retrievers[r] || SameSuccess(s.retrievers[r], s'.retrievers[r])
               else !Succeeded(s'.retrievers[r])
    ensures HasWinner(s, c) <==> HasWinner(s', c)
  {
    if HasWinner(s, c) {
      var r :| 0 <= r < |s.retrievers| && Succeeded(s.retrievers[r]) && ChannelOf(s.retrievers[r]) == Some(c);
      assert Succeeded(s'.retrievers[r]) && ChannelOf(s'.retrievers[r]) == Some(c);
    }
  }

  predicate SameSuccess(r: Retriever, r': Retriever) {
    (Succeeded(r) <==> Succeeded(r')) && ChannelOf(r) == ChannelOf(r')
  }

  lemma {:induction false} MovedRetriever(s: State, s': State, r: nat)
    requires WinnersTook(s) && s'.chans == s.chans && r < |s.retrievers|
    requires |s'.retrievers| == |s.retrievers| && s'.retrievers == s.retrievers[r := s'.retrievers[r]]
    requires SameSuccess(s.retrievers[r], s'.retrievers[r])
    ensures WinnersTook(s')
  {
    forall c | 0 <= c < |s'.chans| ensures s'.chans[c].taken <==> HasWinner(s', c) {
      assert s.chans[c].taken <==> HasWinner(s, c);
      WinnersCompare(s, s', c);
    }
  }

  lemma {:induction false} ReceiveKeepsWinners(s: State, r: nat, c: nat)
    requires WinnersTook(s) && r < |s.retrievers| && c < |s.chans| && s.retrievers[r].pc == Waiting(c)
    ensures WinnersTook(DoReceive(s, r, c))
  {
    var s' := DoReceive(s, r, c);
    if !s.chans[c].full {
      MovedRetriever(s, s', r);
    } else {
      assert Succeeded(s'.retrievers[r]) && ChannelOf(s'.retrievers[r]) == Some(c);
      forall d | 0 <= d < |s'.chans| && d != c ensures s'.chans[d].taken <==> HasWinner(s', d) {
        assert s.chans[d].taken <==> HasWinner(s, d);
        if HasWinner(s, d) {
          var q :| 0 <= q < |s.retrievers| && Succeeded(s.retrievers[q]) && ChannelOf(s.retrievers[q]) == Some(d);
          assert s'.retrievers[q] == s.retrievers[q];
        }
      }
    }
  }

  /** What a retrieval is told. A request under a safely used ID waits for the test
      of that ID whose result has not been retrieved, and is refused if there is
      none. */
  lemma {:induction false} RequestFindsTest(states: seq<State>, steps: seq<Step>, k: nat, id: string)
    requires SafeRun(states, steps, id) && k < |steps| && steps[k] == Request(id)
    ensures var s, s' := states[k], states[k + 1];
            && |s'.retrievers| == |s.retrievers| + 1 && s'.retrievers[|s.retrievers|].id == id
            && match s'.retrievers[|s.retrievers|].pc
               case Waiting(c) => c < |s.tests| && s.tests[c].id == id && c !in s.retrieved
               case Left(from, outcome) => from.None? && outcome.NotFound? && AllRetrieved(s, id)
               case _ => false
  {
    RunKeepsInv(states, steps, k, id);
    RunStep(states, steps, k);
    RequestAnswered(states[k], id);
  }

  ghost predicate AllRetrieved(s: State, id: string) {
    forall i :: 0 <= i < |s.tests| && s.tests[i].id == id ==> i in s.retrieved
  }

  lemma {:induction false} RequestAnswered(s: State, id: string)
    requires Inv(s, id)
    ensures id in s.resultC ==>
              s.resultC[id] < |s.tests| && s.tests[s.resultC[id]].id == id && s.resultC[id] !in s.retrieved
    ensures id !in s.resultC ==> AllRetrieved(s, id)
  {
    assert Names(s, Lookup(s.resultC, id), id);
    if id in s.resultC {
      assert TestOk(s, s.resultC[id]);
    } else {
      forall i | 0 <= i < |s.tests| && s.tests[i].id == id ensures i in s.retrieved {
        assert TestOk(s, i);
      }
    }
  }

  /** A retrieval is told that the result is gone only if another one has it. */
  lemma {:induction false} TooLateHasWinner(states: seq<State>, steps: seq<Step>, k: nat, r: nat)
    requires IsRun(states, steps) && k < |states| && r < |states[k].retrievers|
    requires AllSafe(states, steps, states[k].retrievers[r].id) && WasTooLate(states[k].retrievers[r])
    ensures states[k].retrievers[r].pc.from.Some? && HasOtherWinner(states[k], states[k].retrievers[r].pc.from.value, r)
  {
    RunKeepsInv(states, steps, k, states[k].retrievers[r].id);
    TakenIsHandedOver(states, steps, k);
    var s := states[k];
    assert RetrieverOk(s, s.retrievers[r]);
    assert HasWinner(s, s.retrievers[r].pc.from.value);
  }

  /** It is told of a shutdown only if there was one. */
  lemma {:induction false} ShutdownIsTrue(states: seq<State>, steps: seq<Step>, k: nat, r: nat)
    requires IsRun(states, steps) && k < |states| && r < |states[k].retrievers|
    requires ToldOfShutdown(states[k].retrievers[r])
    ensures Shutdown in steps[..k]
  {
    RunKeepsOutcomes(states, steps, k);
    ShutdownHappened(states, steps, k);
  }

  /** After a shutdown every waiting retrieval can leave. */
  lemma {:induction false} WaiterCanLeave(states: seq<State>, steps: seq<Step>, k: nat, r: nat)
    requires IsRun(states, steps) && k < |states| && Shutdown in steps[..k]
    requires r < |states[k].retrievers| && states[k].retrievers[r].pc.Waiting?
    ensures Enabled(states[k], LeaveOnShutdown(r))
  {
    ShutdownStays(states, steps, k);
  }

  predicate ToldOfShutdown(r: Retriever) { r.pc.Left? && r.pc.outcome.ShutDown? }

  /** What was received is a result or a closed channel, and nobody was told of a
      shutdown that did not happen. */
  ghost predicate OutcomesOk(s: State) {
    forall r :: 0 <= r < |s.retrievers| ==>
      && (s.retrievers[r].pc.Received? ==>
            s.retrievers[r].pc.outcome.Got? || s.retrievers[r].pc.outcome.AlreadyRetrieved?)
      && (ToldOfShutdown(s.retrievers[r]) ==> s.shutdown)
  }

  lemma {:induction false} RunKeepsOutcomes(states: seq<State>, steps: seq<Step>, k: nat)
    requires IsRun(states, steps) && k < |states|
    ensures OutcomesOk(states[k])
  {
    if k > 0 {
      RunKeepsOutcomes(states, steps, k - 1);
      RunStep(states, steps, k - 1);
      StepKeepsOutcomes(states[k - 1], steps[k - 1], states[k]);
    }
  }

  lemma {:induction false} StepKeepsOutcomes(s: State, a: Step, s': State)
    requires OutcomesOk(s) && Next(s, a, s')
    ensures OutcomesOk(s')
  {
    if ByTest(a) {
      TestStepTakesNothing(s, a);
      TestStepKeepsAborters(s, a);
    }
  }

  ghost predicate HasOtherWinner(s: State, c: nat, r: nat) {
    exists q :: && 0 <= q < |s.retrievers| && q != r
                && Succeeded(s.retrievers[q]) && ChannelOf(s.retrievers[q]) == Some(c)
  }

  /** If an ID is never used again, at most one retrieval of it succeeds. */
  lemma {:induction false} AtMostOneSuccessPerId(states: seq<State>, steps: seq<Step>, k: nat, q: nat, r: nat)
    requires IsRun(states, steps) && k < |states| && q < r < |states[k].retrievers|
    requires FreshRun(states, steps, states[k].retrievers[q].id)
    requires Succeeded(states[k].retrievers[q]) && Succeeded(states[k].retrievers[r])
    ensures states[k].retrievers[q].id != states[k].retrievers[r].id
  {
    var s := states[k];
    FreshRunIsSafe(states, steps, s.retrievers[q].id);
    RunKeepsInv(states, steps, k, s.retrievers[q].id);
    AtMostOneSuccess(states, steps, k, q, r);
    if s.retrievers[q].id == s.retrievers[r].id {
      assert RetrieverOk(s, s.retrievers[q]) && RetrieverOk(s, s.retrievers[r]);
      var c, d := ChannelOf(s.retrievers[q]).value, ChannelOf(s.retrievers[r]).value;
      assert Names(s, Some(c), s.retrievers[q].id) && Names(s, Some(d), s.retrievers[r].id);
      OneTestPerId(states, steps, k, Min(c, d), Max(c, d));
    }
  }

  lemma {:induction false} OneTestPerId(states: seq<State>, steps: seq<Step>, k: nat, i: nat, j: nat)
    requires IsRun(states, steps) && k < |states| && i < j < |states[k].tests|
    requires FreshRun(states, steps, states[k].tests[i].id)
    ensures states[k].tests[i].id != states[k].tests[j].id
  {
    var s, a := states[k - 1], steps[k - 1];
    RunStep(states, steps, k - 1);
    StepKeepsIds(s, a);
    if j < |s.tests| {
      OneTestPerId(states, steps, k - 1, i, j);
    } else {
      NewTest(s, a, j);
    }
  }

  lemma {:induction false} NewTest(s: State, a: Step, j: nat)
    requires Enabled(s, a) && |s.tests| <= j < |Apply(s, a).tests|
    ensures j == |s.tests| && Accepted(s, a) && Apply(s, a).tests[j] == Test(a.id, a.kind, Working, s.shutdown, 0)
  {
    if ByTest(a) {
      TestStepKeepsIds(s, a);
    }
  }

  /** A waiting retriever is not stuck, because it can receive or the test it
      waits for can go on towards its result or its close, unless it waits for a
      command whose one result somebody else took: that channel is never closed. */
  lemma {:induction false} WaiterNeverStuck(states: seq<State>, steps: seq<Step>, k: nat, r: nat)
    requires IsRun(states, steps) && k < |states|
    requires r < |states[k].retrievers| && states[k].retrievers[r].pc.Waiting?
    requires AllSafe(states, steps, states[k].retrievers[r].id)
    ensures var s := states[k];
            var c := s.retrievers[r].pc.c;
            && c < |s.tests| == |s.chans| && s.tests[c].id == s.retrievers[r].id
            && (!Spent(s, c) <==> Enabled(s, Receive(r)) || Progressing(s, c))
  {
    var s := states[k];
    RunKeepsInv(states, steps, k, s.retrievers[r].id);
    assert Names(s, ChannelOf(s.retrievers[r]), s.retrievers[r].id);
    assert TestOk(s, s.retrievers[r].pc.c);
  }

  /** Test c is on its way to a result or to the close of its channel, and can go on. */
  predicate Progressing(s: State, c: nat)
    requires c < |s.tests|
  {
    && (!HasSent(s.tests[c]) || s.tests[c].pc.Sent?)
    && !s.tests[c].pc.Done? && Enabled(s, NextStep(s.tests[c], c))
  }

  /** In the excluded case nothing but shutdown ever helps. */
  lemma {:induction false} CommandWaiterStarves(states: seq<State>, steps: seq<Step>, k: nat, l: nat, r: nat, c: nat)
    requires IsRun(states, steps) && k <= l < |states| && Spent(states[k], c)
    requires AllSafe(states, steps, states[k].tests[c].id)
    requires r < |states[l].retrievers| && states[l].retrievers[r].pc == Waiting(c)
    ensures !Enabled(states[l], Receive(r))
  {
    SpentForever(states, steps, k, l, c);
    RunKeepsInv(states, steps, l, states[k].tests[c].id);
    assert TestOk(states[l], c);
  }

  lemma {:induction false} SpentForever(states: seq<State>, steps: seq<Step>, k: nat, l: nat, c: nat)
    requires Continues(states, steps) && k <= l < |states| && Spent(states[k], c)
    ensures Spent(states[l], c) && states[l].tests[c].id == states[k].tests[c].id
  {
    if k < l {
      SpentForever(states, steps, k, l - 1, c);
      RunStep(states, steps, l - 1);
      SpentStep(states[l - 1], steps[l - 1], states[l], c);
    }
  }

  lemma {:induction false} SpentStep(s: State, a: Step, s': State, c: nat)
    requires Next(s, a, s') && Spent(s, c)
    ensures Spent(s', c) && s'.tests[c].id == s.tests[c].id
  {
    StepKeepsIds(s, a);
    if ByTest(a) {
      SpentAfterTestStep(s, a, c);
    }
  }

  lemma {:induction false} SpentAfterTestStep(s: State, a: Step, c: nat)
    requires Enabled(s, a) && Spent(s, c) && ByTest(a)
    ensures Spent(Apply(s, a), c)
  {}

  /** The ID is in resultC exactly if a test of it was not retrieved yet, and in
      testCancel exactly if a test of it is unfinished. */
  lemma {:induction false} MapsTrackTests(states: seq<State>, steps: seq<Step>, k: nat, id: string)
    requires SafeRun(states, steps, id) && k < |states|
    ensures var s := states[k];
            && (id in s.resultC <==> exists i: nat :: i < |s.tests| && s.tests[i].id == id && i !in s.retrieved)
            && (id in s.testCancel <==> exists i: nat :: InUse(s, i, id))
  {
    RunKeepsInv(states, steps, k, id);
    var s := states[k];
    forall i: nat | i < |s.tests| && s.tests[i].id == id
      ensures i !in s.retrieved <==> Maps(s.resultC, id, i)
      ensures Unfinished(s.tests[i]) <==> Maps(s.testCancel, id, i)
    {
      assert TestOk(s, i);
    }
    assert Names(s, Lookup(s.resultC, id), id) && Names(s, Lookup(s.testCancel, id), id);
    if id in s.testCancel {
      assert InUse(s, s.testCancel[id], id);
    }
  }

  predicate InUse(s: State, i: nat, id: string) { i < |s.tests| && s.tests[i].id == id && Unfinished(s.tests[i]) }

  /** Nothing is left behind once every test is done and retrieved. */
  lemma {:induction false} MapsDrain(states: seq<State>, steps: seq<Step>, k: nat)
    requires IsRun(states, steps) && (forall id :: AllSafe(states, steps, id)) && k < |states|
    requires forall i :: 0 <= i < |states[k].tests| ==> states[k].tests[i].pc.Done? && i in states[k].retrieved
    ensures states[k].resultC == map[] && states[k].testCancel == map[]
  {
    var s := states[k];
    forall id ensures id !in s.resultC && id !in s.testCancel {
      assert AllSafe(states, steps, id);
      MapsTrackTests(states, steps, k, id);
    }
  }

  // ----- Cancellation -----

  /** Its goroutine has called the cancel function it took out of testCancel. */
  predicate LetGo(t: Test) { t.pc.Done? || t.pc.EarlySend? }

  /** Cancelled although it has not let go of its context. */
  predicate CutOff(s: State, j: nat) { j < |s.tests| && s.tests[j].cancelled && !LetGo(s.tests[j]) }

  /** An Abort calls the cancel function of test j. */
  predicate Strikes(s: State, a: Step, j: nat) {
    a.AbortCancel? && a.a < |s.aborters| && s.aborters[a.a].cancel == Some(j)
  }

  /** The step is possible. */
  lemma {:induction false} StrikePossible(s: State, a: Step, j: nat)
    requires Strikes(s, a, j)
    ensures Enabled(s, a)
  {
  }

  ghost predicate Struck(states: seq<State>, steps: seq<Step>, k: nat, j: nat) {
    |states| == |steps| + 1 && k < |states| && exists l :: 0 <= l < k && Strikes(states[l], steps[l], j)
  }

  /** Before state k, an Abort of this ID found the cancel function of test j. */
  ghost predicate AbortFound(states: seq<State>, steps: seq<Step>, k: nat, id: string, j: nat) {
    |states| == |steps| + 1 && k < |states| &&
    exists l :: 0 <= l < k && steps[l] == AbortLookup(id) && Lookup(states[l].testCancel, id) == Some(j)
  }

  /** The context of a test has ended if and only if its goroutine let go of it,
      the server was shut down, or an Abort called its cancel function; and such an
      Abort was made under the own ID of the test and found the test there. */
  lemma {:induction false} CancelledExactlyIf(states: seq<State>, steps: seq<Step>, k: nat, j: nat)
    requires IsRun(states, steps) && k < |states| && j < |states[k].tests|
    requires AllSafe(states, steps, states[k].tests[j].id)
    ensures states[k].tests[j].cancelled <==>
              LetGo(states[k].tests[j]) || Shutdown in steps[..k] || Struck(states, steps, k, j)
    ensures Struck(states, steps, k, j) ==> AbortFound(states, steps, k, states[k].tests[j].id, j)
  {
    if CutOff(states[k], j) {
      CutOffByAbortOrShutdown(states, steps, k, j);
    }
    if LetGo(states[k].tests[j]) {
      LetGoIsCancelled(states, steps, k, j, states[k].tests[j].id);
    }
    if Shutdown in steps[..k] {
      ShutdownCancelsAll(states, steps, k, j);
    }
    if Struck(states, steps, k, j) {
      AbortCancels(states, steps, k, j);
      StruckWasFound(states, steps, k, j);
    }
  }

  /** Abort does what it is for: whatever else happens, in every run and under any
      use of the IDs, the test whose cancel function it calls stays cancelled. */
  lemma {:induction false} AbortCancels(states: seq<State>, steps: seq<Step>, k: nat, j: nat)
    requires IsRun(states, steps) && k < |states| && Struck(states, steps, k, j)
    ensures Ended(states[k], j)
  {
    var l :| 0 <= l < k && Strikes(states[l], steps[l], j);
    AbortCancelsAt(states, steps, l, k, j);
  }

  lemma {:induction false} AbortCancelsAt(states: seq<State>, steps: seq<Step>, l: nat, k: nat, j: nat)
    requires IsRun(states, steps) && l < k < |states| && Strikes(states[l], steps[l], j)
    ensures Ended(states[k], j)
  {
    if l == k - 1 {
      AborterNames(states, steps, l, steps[l].a, j);
    } else {
      AbortCancelsAt(states, steps, l, k - 1, j);
    }
    EndedNext(states, steps, k, j);
  }

  lemma {:induction false} EndedNext(states: seq<State>, steps: seq<Step>, k: nat, j: nat)
    requires Continues(states, steps) && 0 < k < |states| && j < |states[k - 1].tests|
    requires Ended(states[k - 1], j) || Strikes(states[k - 1], steps[k - 1], j)
    ensures Ended(states[k], j)
  {
    RunStep(states, steps, k - 1);
    EndedAfter(states[k - 1], steps[k - 1], states[k], j);
  }

  predicate Ended(s: State, j: nat) { j < |s.tests| && s.tests[j].cancelled }

  lemma {:induction false} EndedAfter(s: State, a: Step, s': State, j: nat)
    requires Next(s, a, s') && j < |s.tests| && (Ended(s, j) || Strikes(s, a, j))
    ensures Ended(s', j)
  {
    if Ended(s, j) {
      StaysCancelled(s, a, j);
    }
  }

  /** Such an Abort was made under the ID of the test it strikes. */
  lemma {:induction false} StruckWasFound(states: seq<State>, steps: seq<Step>, k: nat, j: nat)
    requires IsRun(states, steps) && k < |states| && Struck(states, steps, k, j)
    ensures j < |states[k].tests| && AbortFound(states, steps, k, states[k].tests[j].id, j)
  {
    if Strikes(states[k - 1], steps[k - 1], j) {
      AborterLookedUp(states, steps, k - 1, steps[k - 1].a, j);
      AborterNames(states, steps, k - 1, steps[k - 1].a, j);
    } else {
      StruckWasFound(states, steps, k - 1, j);
    }
    FoundLater(states, steps, k, j);
  }

  lemma {:induction false} AborterNames(states: seq<State>, steps: seq<Step>, k: nat, x: nat, j: nat)
    requires IsRun(states, steps) && k < |states|
    requires x < |states[k].aborters| && states[k].aborters[x].cancel == Some(j)
    ensures j < |states[k].tests| && states[k].tests[j].id == states[k].aborters[x].id
  {
    RunKeepsNamed(states, steps, k);
    assert Names(states[k], states[k].aborters[x].cancel, states[k].aborters[x].id);
  }

  lemma {:induction false} FoundLater(states: seq<State>, steps: seq<Step>, k: nat, j: nat)
    requires Continues(states, steps) && 0 < k < |states| && j < |states[k - 1].tests|
    requires AbortFound(states, steps, k - 1, states[k - 1].tests[j].id, j)
    ensures j < |states[k].tests| && AbortFound(states, steps, k, states[k].tests[j].id, j)
  {
    SameIdBefore(states, steps, k, j);
    ExplainedLater(states, steps, k, states[k].tests[j].id, j);
  }

  /** An Abort that looks its ID up while a test of it is unfinished has that test's
      cancel function in hand, and can call it until the test is cancelled. */
  lemma {:induction false} AbortReaches(states: seq<State>, steps: seq<Step>, k: nat, l: nat, j: nat)
    requires IsRun(states, steps) && k < l < |states| && j < |states[k].tests| && Unfinished(states[k].tests[j])
    requires AllSafe(states, steps, states[k].tests[j].id) && steps[k] == AbortLookup(states[k].tests[j].id)
    ensures Ended(states[l], j) || Strikes(states[l], AbortCancel(|states[k].aborters|), j)
  {
    AbortLooksUp(states, steps, k, j);
    InHandUntilEnded(states, steps, k + 1, l, AbortCancel(|states[k].aborters|), j);
  }

  lemma {:induction false} InHandUntilEnded(states: seq<State>, steps: seq<Step>, k: nat, l: nat, next: Step, j: nat)
    requires IsRun(states, steps) && k <= l < |states| && (Ended(states[k], j) || Strikes(states[k], next, j))
    ensures Ended(states[l], j) || Strikes(states[l], next, j)
  {
    if k < l {
      InHandUntilEnded(states, steps, k, l - 1, next, j);
      StrikeStays(states, steps, l, next, j);
    }
  }

  lemma {:induction false} AbortLooksUp(states: seq<State>, steps: seq<Step>, k: nat, j: nat)
    requires IsRun(states, steps) && k < |steps| && j < |states[k].tests| && Unfinished(states[k].tests[j])
    requires AllSafe(states, steps, states[k].tests[j].id) && steps[k] == AbortLookup(states[k].tests[j].id)
    ensures Strikes(states[k + 1], AbortCancel(|states[k].aborters|), j)
  {
    RunKeepsInv(states, steps, k, states[k].tests[j].id);
    RunStep(states, steps, k);
    AbortFinds(states[k], states[k + 1], j);
  }

  lemma {:induction false} AbortFinds(s: State, s': State, j: nat)
    requires j < |s.tests| && Inv(s, s.tests[j].id) && Unfinished(s.tests[j]) && Next(s, AbortLookup(s.tests[j].id), s')
    ensures Strikes(s', AbortCancel(|s.aborters|), j)
  {
    assert TestOk(s, j);
  }

  lemma {:induction false} StrikeStays(states: seq<State>, steps: seq<Step>, l: nat, next: Step, j: nat)
    requires IsRun(states, steps) && 0 < l < |states|
    requires Ended(states[l - 1], j) || Strikes(states[l - 1], next, j)
    ensures Ended(states[l], j) || Strikes(states[l], next, j)
  {
    if Strikes(states[l - 1], steps[l - 1], j) {
      AborterNames(states, steps, l - 1, steps[l - 1].a, j);
      EndedNext(states, steps, l, j);
    } else if Ended(states[l - 1], j) {
      EndedNext(states, steps, l, j);
    } else {
      RunStep(states, steps, l - 1);
      InHandAfter(states[l - 1], steps[l - 1], states[l], next, j);
    }
  }

  lemma {:induction false} InHandAfter(s: State, a: Step, s': State, next: Step, j: nat)
    requires Next(s, a, s') && Strikes(s, next, j) && !Strikes(s, a, j)
    ensures Strikes(s', next, j)
  {
    if ByTest(a) {
      TestStepKeepsAborters(s, a);
    }
  }

  /** A test that has let go of its context has ended it. */
  lemma {:induction false} LetGoIsCancelled(states: seq<State>, steps: seq<Step>, k: nat, j: nat, id: string)
    requires SafeRun(states, steps, id) && k < |states|
    requires j < |states[k].tests| && states[k].tests[j].id == id && LetGo(states[k].tests[j])
    ensures states[k].tests[j].cancelled
  {
    WasThere(states, steps, k, j);
    if LetGo(states[k - 1].tests[j]) {
      LetGoIsCancelled(states, steps, k - 1, j, id);
    }
    PcInRun(states, steps, k - 1, j, id);
    CancelledNow(states, steps, k, j);
  }

  lemma {:induction false} WasThere(states: seq<State>, steps: seq<Step>, k: nat, j: nat)
    requires IsRun(states, steps) && k < |states| && j < |states[k].tests| && LetGo(states[k].tests[j])
    ensures k > 0 && j < |states[k - 1].tests| && states[k - 1].tests[j].id == states[k].tests[j].id
  {
    StartsEmpty(states, steps);
    OldEnough(states, steps, k, j);
    SameIdBefore(states, steps, k, j);
  }

  lemma {:induction false} CancelledNow(states: seq<State>, steps: seq<Step>, k: nat, j: nat)
    requires Continues(states, steps) && 0 < k < |states| && j < |states[k].tests| && LetGo(states[k].tests[j])
    requires j < |states[k - 1].tests| == |states[k - 1].chans| && PcOk(states[k - 1].tests[j], j)
    requires LetGo(states[k - 1].tests[j]) ==> states[k - 1].tests[j].cancelled
    ensures states[k].tests[j].cancelled
  {
    RunStep(states, steps, k - 1);
    LetGoAfter(states[k - 1], steps[k - 1], states[k], j);
  }

  lemma {:induction false} PcInRun(states: seq<State>, steps: seq<Step>, k: nat, j: nat, id: string)
    requires SafeRun(states, steps, id) && k < |states| && j < |states[k].tests| && states[k].tests[j].id == id
    ensures |states[k].tests| == |states[k].chans| && PcOk(states[k].tests[j], j)
  {
    RunKeepsInv(states, steps, k, id);
    assert TestOk(states[k], j);
  }

  lemma {:induction false} LetGoAfter(s: State, a: Step, s': State, j: nat)
    requires Next(s, a, s') && j < |s.tests| == |s.chans| && PcOk(s.tests[j], j)
    requires LetGo(s.tests[j]) ==> s.tests[j].cancelled
    requires j < |s'.tests| && LetGo(s'.tests[j])
    ensures s'.tests[j].cancelled
  {
    if LetGo(s.tests[j]) {
      StaysCancelled(s, a, j);
    } else {
      LettingGo(s, a, s', j);
    }
  }

  /** A test that has let go was not registered just now. */
  lemma {:induction false} OldEnough(states: seq<State>, steps: seq<Step>, k: nat, j: nat)
    requires Continues(states, steps) && 0 < k < |states| && j < |states[k].tests| && LetGo(states[k].tests[j])
    ensures j < |states[k - 1].tests|
  {
    RunStep(states, steps, k - 1);
    if j >= |states[k - 1].tests| {
      NewTest(states[k - 1], steps[k - 1], j);
    }
  }

  lemma {:induction false} LettingGo(s: State, a: Step, s': State, j: nat)
    requires Next(s, a, s') && j < |s.tests| == |s.chans| && PcOk(s.tests[j], j) && !LetGo(s.tests[j])
    requires j < |s'.tests| && LetGo(s'.tests[j])
    ensures s'.tests[j].cancelled
  {
    if ByTest(a) {
      TestStepRest(s, a);
      if a.i == j {
        OwnStepLetsGo(s, a);
      }
    }
  }

  lemma {:induction false} OwnStepLetsGo(s: State, a: Step)
    requires Enabled(s, a) && ByTest(a) && PcOk(s.tests[a.i], a.i) && !LetGo(s.tests[a.i])
    ensures a.i < |Apply(s, a).tests|
    ensures LetGo(Apply(s, a).tests[a.i]) ==> Apply(s, a).tests[a.i].cancelled
  {}

  /** A test whose context has ended although it did not let go of it was cut off
      by the shutdown of the server, or by an Abort. */
  lemma {:induction false} CutOffByAbortOrShutdown(states: seq<State>, steps: seq<Step>, k: nat, j: nat)
    requires IsRun(states, steps) && k < |states| && CutOff(states[k], j)
    requires AllSafe(states, steps, states[k].tests[j].id)
    ensures Shutdown in steps[..k] || Struck(states, steps, k, j)
  {
    StartsEmpty(states, steps);
    if CutOff(states[k - 1], j) {
      SameIdBefore(states, steps, k, j);
      CutOffByAbortOrShutdown(states, steps, k - 1, j);
      ExplainedLater(states, steps, k, states[k].tests[j].id, j);
    } else {
      CauseBefore(states, steps, k, j);
      CauseExplains(states, steps, k, j);
    }
  }

  lemma {:induction false} StartsEmpty(states: seq<State>, steps: seq<Step>)
    requires IsRun(states, steps)
    ensures states[0].tests == []
  {}

  lemma {:induction false} SameIdBefore(states: seq<State>, steps: seq<Step>, k: nat, j: nat)
    requires Continues(states, steps) && 0 < k < |states| && j < |states[k - 1].tests|
    ensures j < |states[k].tests| && states[k].tests[j].id == states[k - 1].tests[j].id
  {
    RunStep(states, steps, k - 1);
    StepKeepsIds(states[k - 1], steps[k - 1]);
  }

  lemma {:induction false} ExplainedLater(states: seq<State>, steps: seq<Step>, k: nat, id: string, j: nat)
    requires |states| == |steps| + 1 && 0 < k < |states|
    ensures Shutdown in steps[..k - 1] ==> Shutdown in steps[..k]
    ensures Struck(states, steps, k - 1, j) ==> Struck(states, steps, k, j)
    ensures AbortFound(states, steps, k - 1, id, j) ==> AbortFound(states, steps, k, id, j)
  {
    assert steps[..k] == steps[..k - 1] + [steps[k - 1]];
  }

  /** The step can cut off test j. */
  predicate Cause(s: State, a: Step, j: nat) {
    a.Shutdown? || (a.Register? && s.shutdown) || Strikes(s, a, j)
  }

  lemma {:induction false} CauseExplains(states: seq<State>, steps: seq<Step>, k: nat, j: nat)
    requires IsRun(states, steps) && 0 < k < |states| && Cause(states[k - 1], steps[k - 1], j)
    ensures Shutdown in steps[..k] || Struck(states, steps, k, j)
  {
    assert steps[..k] == steps[..k - 1] + [steps[k - 1]];
    if Strikes(states[k - 1], steps[k - 1], j) {
      assert Struck(states, steps, k, j);
    } else if steps[k - 1].Shutdown? {
      assert steps[..k][k - 1] == Shutdown;
    } else {
      ShutdownHappened(states, steps, k - 1);
    }
  }

  lemma {:induction false} CauseBefore(states: seq<State>, steps: seq<Step>, k: nat, j: nat)
    requires IsRun(states, steps) && 0 < k < |states| && CutOff(states[k], j) && !CutOff(states[k - 1], j)
    requires AllSafe(states, steps, states[k].tests[j].id)
    ensures Cause(states[k - 1], steps[k - 1], j)
  {
    RunKeepsInv(states, steps, k - 1, states[k].tests[j].id);
    RunStep(states, steps, k - 1);
    CutOffCause(states[k - 1], steps[k - 1], j);
  }

  lemma {:induction false} CutOffCause(s: State, a: Step, j: nat)
    requires Enabled(s, a) && CutOff(Apply(s, a), j) && !CutOff(s, j) && Inv(s, Apply(s, a).tests[j].id)
    ensures Cause(s, a, j)
  {
    StepKeepsIds(s, a);
    if ByTest(a) {
      TestStepKeepsIds(s, a);
      assert PcNames(s, s.tests[a.i]);
      if s.tests[a.i].id == s.tests[j].id {
        assert TestOk(s, a.i);
      }
      TestStepCutsOffNone(s, a, j);
    } else if !a.AbortCancel? && !a.Shutdown? && !(a.Register? && s.shutdown) {
      OtherStepCutsOffNone(s, a, j);
    }
  }

  lemma {:induction false} TestStepCutsOffNone(s: State, a: Step, j: nat)
    requires Enabled(s, a) && ByTest(a) && j < |s.tests| && PcNames(s, s.tests[a.i])
    requires s.tests[a.i].id == s.tests[j].id ==> PcOk(s.tests[a.i], a.i)
    ensures CutOff(Apply(s, a), j) ==> CutOff(s, j)
  {}

  lemma {:induction false} OtherStepCutsOffNone(s: State, a: Step, j: nat)
    requires Enabled(s, a) && !ByTest(a) && !a.AbortCancel? && !a.Shutdown? && !(a.Register? && s.shutdown)
    ensures CutOff(Apply(s, a), j) ==> CutOff(s, j)
  {}

  lemma {:induction false} AborterLookedUp(states: seq<State>, steps: seq<Step>, k: nat, x: nat, j: nat)
    requires IsRun(states, steps) && k < |states|
    requires x < |states[k].aborters| && states[k].aborters[x].cancel == Some(j)
    ensures AbortFound(states, steps, k, states[k].aborters[x].id, j)
  {
    var s, a := states[k - 1], steps[k - 1];
    RunStep(states, steps, k - 1);
    AborterStep(s, a, x);
    if x < |s.aborters| {
      AborterLookedUp(states, steps, k - 1, x, j);
    }
  }

  lemma {:induction false} AborterStep(s: State, a: Step, x: nat)
    requires Enabled(s, a) && x < |Apply(s, a).aborters| && Apply(s, a).aborters[x].cancel.Some?
    ensures if x < |s.aborters| then Apply(s, a).aborters[x] == s.aborters[x]
            else a.AbortLookup? && Apply(s, a).aborters[x] == Aborter(a.id, Lookup(s.testCancel, a.id))
  {
    if ByTest(a) {
      TestStepKeepsAborters(s, a);
    }
  }

  lemma {:induction false} TestStepKeepsAborters(s: State, a: Step)
    requires Enabled(s, a) && ByTest(a)
    ensures Apply(s, a).aborters == s.aborters && Apply(s, a).shutdown == s.shutdown
  {}

  lemma {:induction false} ShutdownHappened(states: seq<State>, steps: seq<Step>, k: nat)
    requires IsRun(states, steps) && k < |states| && states[k].shutdown
    ensures Shutdown in steps[..k]
  {
    var s, a := states[k - 1], steps[k - 1];
    RunStep(states, steps, k - 1);
    assert steps[..k] == steps[..k - 1] + [a];
    if s.shutdown {
      ShutdownHappened(states, steps, k - 1);
    } else if ByTest(a) {
      TestStepKeepsAborters(s, a);
    }
  }

  /** Conversely, shutdown spares no test, not even one registered after it. */
  lemma {:induction false} ShutdownCancelsAll(states: seq<State>, steps: seq<Step>, k: nat, j: nat)
    requires IsRun(states, steps) && k < |states| && Shutdown in steps[..k] && j < |states[k].tests|
    ensures states[k].shutdown && states[k].tests[j].cancelled
  {
    var s, a := states[k - 1], steps[k - 1];
    RunStep(states, steps, k - 1);
    assert steps[..k] == steps[..k - 1] + [a];
    if j >= |s.tests| {
      NewTest(s, a, j);
    }
    if a != Shutdown {
      assert Shutdown in steps[..k - 1];
      if j < |s.tests| {
        ShutdownCancelsAll(states, steps, k - 1, j);
      } else {
        ShutdownStays(states, steps, k - 1);
      }
      StaysCancelled(s, a, j);
    }
  }

  lemma {:induction false} ShutdownStays(states: seq<State>, steps: seq<Step>, k: nat)
    requires IsRun(states, steps) && k < |states| && Shutdown in steps[..k]
    ensures states[k].shutdown
  {
    var s, a := states[k - 1], steps[k - 1];
    RunStep(states, steps, k - 1);
    assert steps[..k] == steps[..k - 1] + [a];
    if a != Shutdown {
      assert Shutdown in steps[..k - 1];
      ShutdownStays(states, steps, k - 1);
      StaysCancelled(s, a, 0);
    }
  }

  lemma {:induction false} StaysCancelled(s: State, a: Step, j: nat)
    requires Enabled(s, a)
    ensures s.shutdown ==> Apply(s, a).shutdown
    ensures j < |s.tests| && s.tests[j].cancelled ==> j < |Apply(s, a).tests| && Apply(s, a).tests[j].cancelled
  {
    if ByTest(a) {
      TestStepStaysCancelled(s, a, j);
    }
  }

  lemma {:induction false} TestStepStaysCancelled(s: State, a: Step, j: nat)
    requires Enabled(s, a) && ByTest(a)
    ensures Apply(s, a).shutdown == s.shutdown
    ensures j < |s.tests| && s.tests[j].cancelled ==> j < |Apply(s, a).tests| && Apply(s, a).tests[j].cancelled
  {}

  /** After finishTest, Abort does not find the test any more, and finds nothing
      at all unless its ID is in use again. */
  lemma {:induction false} AbortAfterFinishIsNoOp(states: seq<State>, steps: seq<Step>, k: nat, j: nat)
    requires IsRun(states, steps) && k < |states| && j < |states[k].tests| && !Unfinished(states[k].tests[j])
    requires AllSafe(states, steps, states[k].tests[j].id)
    ensures var s := states[k];
            var found := Lookup(s.testCancel, s.tests[j].id);
            && found != Some(j)
            && (found.Some? ==> InUse(s, found.value, s.tests[j].id))
  {
    var s := states[k];
    RunKeepsInv(states, steps, k, s.tests[j].id);
    assert TestOk(s, j);
    if s.tests[j].id in s.testCancel {
      assert Names(s, Lookup(s.testCancel, s.tests[j].id), s.tests[j].id);
      assert TestOk(s, s.testCancel[s.tests[j].id]);
    }
  }

  // ----- When an ID may be used again -----

  /** Test n has its channel until its result was retrieved, and its cancel entry
      until it has finished. */
  predicate Kept(s: State, n: nat) {
    && n < |s.tests|
    && (n !in s.retrieved ==> Maps(s.resultC, s.tests[n].id, n))
    && (Unfinished(s.tests[n]) ==> Maps(s.testCancel, s.tests[n].id, n))
  }

  /** However things go on, as long as the ID is not registered again before it is
      quiet, test n keeps what is its own. */
  ghost predicate KeptForever(s: State, n: nat)
    requires n < |s.tests|
  {
    forall states, steps | Continues(states, steps) && states[0] == s && AllSafe(states, steps, s.tests[n].id) ::
      Kept(states[|steps|], n)
  }

  lemma {:induction false} IdStays(states: seq<State>, steps: seq<Step>, k: nat, n: nat)
    requires Continues(states, steps) && k < |states| && n < |states[0].tests|
    ensures n < |states[k].tests| && states[k].tests[n].id == states[0].tests[n].id
  {
    if k > 0 {
      IdStays(states, steps, k - 1, n);
      RunStep(states, steps, k - 1);
      StepKeepsIds(states[k - 1], steps[k - 1]);
    }
  }

  lemma {:induction false} InvKeepsForever(s: State, n: nat)
    requires n < |s.tests| && Inv(s, s.tests[n].id)
    ensures KeptForever(s, n)
  {
    forall states, steps | Continues(states, steps) && states[0] == s && AllSafe(states, steps, s.tests[n].id)
      ensures Kept(states[|steps|], n)
    {
      KeepsInv(states, steps, |steps|, s.tests[n].id);
      IdStays(states, steps, |steps|, n);
      assert TestOk(states[|steps|], n);
    }
  }

  /** Extends a stretch by one step that is no registration. */
  lemma {:induction false} GoOn(states: seq<State>, steps: seq<Step>, a: Step, id: string)
    returns (states': seq<State>, steps': seq<Step>)
    requires Continues(states, steps) && AllSafe(states, steps, id) && Enabled(states[|steps|], a) && !a.Register?
    ensures Continues(states', steps') && AllSafe(states', steps', id) && states'[0] == states[0]
    ensures |steps'| == |steps| + 1 && states'[|steps'|] == Apply(states[|steps|], a)
  {
    states', steps' := states + [Apply(states[|steps|], a)], steps + [a];
    forall k | 0 <= k < |steps'|
      ensures Next(states'[k], steps'[k], states'[k + 1]) && SafeFor(states'[k], steps'[k], id)
    {
      assert k < |steps| ==> steps[k] == steps'[k] && SafeFor(states[k], steps[k], id);
    }
  }

  /** An old retrieval still under way removes the channel of the new test. */
  lemma {:induction false} RetrieverTakesChannel(s: State, r: nat, n: nat)
    returns (states: seq<State>, steps: seq<Step>)
    requires n < |s.tests| == |s.chans| && n !in s.retrieved
    requires r < |s.retrievers| && s.retrievers[r].id == s.tests[n].id
    requires s.retrievers[r].pc.Waiting? || s.retrievers[r].pc.Received?
    requires var c := s.retrievers[r].pc.c;
             && c < |s.tests| && c != n
             && (s.retrievers[r].pc.Waiting? && !CanReceive(s, c) ==> s.tests[c].pc == Sent(Some(c)) && IsOpen(s, c))
    ensures Continues(states, steps) && AllSafe(states, steps, s.tests[n].id) && states[0] == s
    ensures !Kept(states[|steps|], n)
  {
    var c, id := s.retrievers[r].pc.c, s.tests[n].id;
    states, steps := [s], [];
    if s.retrievers[r].pc.Waiting? {
      if !CanReceive(s, c) {
        states, steps := GoOn(states, steps, Close(c), id);
      }
      states, steps := GoOn(states, steps, Receive(r), id);
    }
    states, steps := GoOn(states, steps, Remove(r), id);
  }

  /** An old test that has not finished removes the cancel entry of the new one. */
  lemma {:induction false} ReleaseTakesCancel(s: State, j: nat, n: nat) returns (states: seq<State>, steps: seq<Step>)
    requires j < n < |s.tests| == |s.chans| && s.tests[j].id == s.tests[n].id && s.tests[n].pc.Working?
    requires s.tests[j].pc.Closed? || (s.tests[j].pc == Sent(Some(j)) && IsOpen(s, j))
    ensures Continues(states, steps) && AllSafe(states, steps, s.tests[n].id) && states[0] == s
    ensures !Kept(states[|steps|], n)
  {
    states, steps := [s], [];
    if s.tests[j].pc.Sent? {
      states, steps := GoOn(states, steps, Close(j), s.tests[n].id);
    }
    states, steps := GoOn(states, steps, Release(j), s.tests[n].id);
  }

  /** What still holds of an ID that is not in resultC. */
  lemma {:induction false} GoneFromResults(s: State, c: nat)
    requires c < |s.tests| == |s.chans| && TestOk(s, c) && s.tests[c].id !in s.resultC
    ensures s.chans[c].taken && HasSent(s.tests[c])
    ensures s.tests[c].kind.Serve? && !s.chans[c].closed ==> s.tests[c].pc == Sent(Some(c))
    ensures Unfinished(s.tests[c]) && !s.tests[c].pc.Closed? ==> s.tests[c].pc == Sent(Some(c)) && !s.chans[c].closed
  {}

  lemma {:induction false} UnquietLoses(s: State, id: string, kind: Kind)
    requires Inv(s, id) && Accepted(s, Register(id, kind)) && !Quiet(s, id)
    ensures !KeptForever(DoRegister(s, id, kind), |s.tests|)
  {
    var s', n := DoRegister(s, id, kind), |s.tests|;
    var states, steps;
    if r :| 0 <= r < |s.retrievers| && s.retrievers[r].id == id && MayRemove(s, s.retrievers[r]) {
      assert Names(s, ChannelOf(s.retrievers[r]), id);
      assert TestOk(s, s.retrievers[r].pc.c);
      GoneFromResults(s, s.retrievers[r].pc.c);
      states, steps := RetrieverTakesChannel(s', r, n);
    } else {
      var j :| 0 <= j < |s.tests| && s.tests[j].id == id && Unfinished(s.tests[j]);
      assert TestOk(s, j);
      GoneFromResults(s, j);
      states, steps := ReleaseTakesCancel(s', j, n);
    }
  }

  /** In any state reached while the ID was used safely: a test newly registered
      under it keeps its channel and its cancel entry in every continuation that
      does not register the ID again before it is quiet, if and only if the ID is
      quiet now: no retrieval of it is under way and no test of it is unfinished. */
  lemma {:induction false} ReuseSafeExactlyWhenQuiet(states: seq<State>, steps: seq<Step>, k: nat, id: string,
                                                     kind: Kind)
    requires SafeRun(states, steps, id) && k < |states| && Accepted(states[k], Register(id, kind))
    ensures KeptForever(DoRegister(states[k], id, kind), |states[k].tests|) <==> Quiet(states[k], id)
  {
    var s := states[k];
    RunKeepsInv(states, steps, k, id);
    if Quiet(s, id) {
      StepKeepsInv(s, Register(id, kind), id);
      InvKeepsForever(DoRegister(s, id, kind), |s.tests|);
    } else {
      UnquietLoses(s, id, kind);
    }
  }

  /** A send on or a close of a closed channel ends the whole process. */
  predicate AboutToPanic(s: State, i: nat)
    requires i < |s.tests|
  {
    var t := s.tests[i];
    (t.pc.Fetched? || t.pc.Sent?) && t.pc.c.Some? && t.pc.c.value < |s.chans| && s.chans[t.pc.c.value].closed
  }

  // ----- Concrete runs -----

  const NEW_TEST := Test("a", Serve, Working, false, 0)
  const NEW_CHAN := Chan(false, false, false)

  /** Extends a run by one step. */
  lemma {:induction false} Extend(states: seq<State>, steps: seq<Step>, a: Step, next: State)
    returns (states': seq<State>, steps': seq<Step>)
    requires IsRun(states, steps) && Enabled(states[|steps|], a) && next == Apply(states[|steps|], a)
    ensures IsRun(states', steps') && steps' == steps + [a] && states' == states + [next]
  {
    states', steps' := states + [next], steps + [a];
  }

  /** Test 0 has delivered and closed; two requests for it are waiting. */
  function TwoWaiting(): State {
    State([Test("a", Serve, Closed, false, 1)], [Chan(true, true, false)], map["a" := 0], map["a" := 0],
          [Retriever("a", Waiting(0)), Retriever("a", Waiting(0))], [], {}, false)
  }

  lemma {:induction false} ReachTwoRequests() returns (states: seq<State>, steps: seq<Step>)
    ensures IsRun(states, steps) && Undisturbed(steps)
    ensures states[|steps|] == TwoWaiting().(tests := [NEW_TEST], chans := [NEW_CHAN])
  {
    var s0 := State([], [], map[], map[], [], [], {}, false);
    var t := NEW_TEST;
    var s1 := s0.(tests := [t], chans := [NEW_CHAN], resultC := map["a" := 0], testCancel := map["a" := 0]);
    states, steps := [s0], [];
    states, steps := Extend(states, steps, Register("a", Serve), s1);
    var s2 := s1.(retrievers := [Retriever("a", Waiting(0))]);
    states, steps := Extend(states, steps, Request("a"), s2);
    var s3 := s2.(retrievers := [Retriever("a", Waiting(0)), Retriever("a", Waiting(0))]);
    states, steps := Extend(states, steps, Request("a"), s3);
  }

  lemma {:induction false} ReachTwoWaiting() returns (states: seq<State>, steps: seq<Step>)
    ensures IsRun(states, steps) && Undisturbed(steps) && states[|steps|] == TwoWaiting()
  {
    states, steps := ReachTwoRequests();
    var s3 := states[|steps|];
    var t := NEW_TEST;
    var s4 := s3.(tests := [t.(pc := Fetched(Some(0)))]);
    states, steps := Extend(states, steps, Fetch(0), s4);
    var s5 := s4.(tests := [t.(pc := Sent(Some(0)), sends := 1)], chans := [Chan(true, false, false)]);
    states, steps := Extend(states, steps, Send(0), s5);
    states, steps := Extend(states, steps, Close(0), TwoWaiting());
  }

  /** One of the two has its answer, "a" is registered again; the other retrieval
      is still under way and the first test has not released its context. */
  lemma {:induction false} ReachReuse() returns (states: seq<State>, steps: seq<Step>)
    ensures IsRun(states, steps) && Undisturbed(steps)
    ensures states[|steps|] ==
            State([Test("a", Serve, Closed, false, 1), NEW_TEST],
                  [Chan(false, true, true), NEW_CHAN], map["a" := 1], map["a" := 1],
                  [Retriever("a", Left(Some(0), Got)), Retriever("a", Waiting(0))], [], {0}, false)
  {
    states, steps := ReachTwoWaiting();
    var s := TwoWaiting();
    var r0, r1 := s.retrievers[0], s.retrievers[1];
    var s1 := s.(chans := [Chan(false, true, true)], retrievers := [r0.(pc := Received(0, Got)), r1]);
    states, steps := Extend(states, steps, Receive(0), s1);
    var s2 := s1.(resultC := map[], retrieved := {0}, retrievers := [r0.(pc := Left(Some(0), Got)), r1]);
    states, steps := Extend(states, steps, Remove(0), s2);
    var s3 := s2.(tests := s.tests + [NEW_TEST], chans := s2.chans + [NEW_CHAN],
                  resultC := map["a" := 1], testCancel := map["a" := 1]);
    states, steps := Extend(states, steps, Register("a", Serve), s3);
  }

  /** The second retrieval of the old result removes the new test's channel: that
      test then looks up a nil channel and can never deliver. */
  lemma {:induction false} ReuseLosesResult() returns (states: seq<State>, steps: seq<Step>)
    ensures IsRun(states, steps)
    ensures var s := states[|steps|]; |s.tests| == 2 && s.tests[1].pc == Fetched(None) && !Enabled(s, Send(1))
  {
    states, steps := ReachReuse();
    var s := states[|steps|];
    var s1 := DoReceive(s, 1, 0);
    states, steps := Extend(states, steps, Receive(1), s1);
    var s2 := DoRemove(s1, 1);
    states, steps := Extend(states, steps, Remove(1), s2);
    assert s2.resultC == map[];
    states, steps := Extend(states, steps, Fetch(1), SetPc(s2, 1, Fetched(None)));
  }

  /** The old test's finishTest takes the new test's cancel function and calls it:
      a running test is cancelled without any Abort or shutdown. */
  lemma {:induction false} ReuseCancelsNewTest() returns (states: seq<State>, steps: seq<Step>)
    ensures IsRun(states, steps) && Undisturbed(steps)
    ensures var s := states[|steps|]; |s.tests| == 2 && CutOff(s, 1) && "a" !in s.testCancel
  {
    states, steps := ReachReuse();
    var s1 := DoRelease(states[|steps|], 0, false);
    states, steps := Extend(states, steps, Release(0), s1);
    var s2 := Cancel(SetPc(s1, 0, Done), Some(1));
    states, steps := Extend(states, steps, CancelSelf(0), s2);
  }

  predicate Undisturbed(steps: seq<Step>) {
    forall k :: 0 <= k < |steps| ==> !steps[k].AbortLookup? && !steps[k].Shutdown?
  }

  /** Where the hasty run below meets the second registration of "a": the result of
      test 0 was retrieved before test 0 could close its channel and finish. */
  lemma {:induction false} ReachRetrieved() returns (states: seq<State>, steps: seq<Step>)
    ensures IsRun(states, steps) && Undisturbed(steps) && OneRegistration(steps)
    ensures |steps| > 0 && steps[0] == Register("a", Serve)
    ensures states[|steps|] ==
            State([Test("a", Serve, Sent(Some(0)), false, 1)], [Chan(false, false, true)], map[], map["a" := 0],
                  [Retriever("a", Left(Some(0), Got))], [], {0}, false)
  {
    var s0 := State([], [], map[], map[], [], [], {}, false);
    var t := NEW_TEST;
    var s1 := s0.(tests := [t], chans := [NEW_CHAN], resultC := map["a" := 0], testCancel := map["a" := 0]);
    states, steps := [s0], [];
    states, steps := Extend(states, steps, Register("a", Serve), s1);
    var s2 := s1.(retrievers := [Retriever("a", Waiting(0))]);
    states, steps := Extend(states, steps, Request("a"), s2);
    states, steps := FetchSendTake(states, steps, s2);
  }

  lemma {:induction false} FetchSendTake(states: seq<State>, steps: seq<Step>, s: State)
    returns (states': seq<State>, steps': seq<Step>)
    requires IsRun(states, steps) && Undisturbed(steps) && OneRegistration(steps) && states[|steps|] == s && |steps| > 0
    requires s == State([NEW_TEST], [NEW_CHAN], map["a" := 0], map["a" := 0],
                        [Retriever("a", Waiting(0))], [], {}, false)
    ensures IsRun(states', steps') && Undisturbed(steps') && OneRegistration(steps') && steps <= steps'
    ensures states'[|steps'|] ==
            State([Test("a", Serve, Sent(Some(0)), false, 1)], [Chan(false, false, true)], map[], map["a" := 0],
                  [Retriever("a", Left(Some(0), Got))], [], {0}, false)
  {
    var t := NEW_TEST;
    var s3 := s.(tests := [t.(pc := Fetched(Some(0)))]);
    states', steps' := Extend(states, steps, Fetch(0), s3);
    var s4 := s3.(tests := [t.(pc := Sent(Some(0)), sends := 1)], chans := [Chan(true, false, false)]);
    states', steps' := Extend(states', steps', Send(0), s4);
    var s5 := s4.(chans := [Chan(false, false, true)], retrievers := [Retriever("a", Received(0, Got))]);
    states', steps' := Extend(states', steps', Receive(0), s5);
    var s6 := s5.(resultC := map[], retrieved := {0}, retrievers := [Retriever("a", Left(Some(0), Got))]);
    states', steps' := Extend(states', steps', Remove(0), s6);
  }

  /** Only the first step registers anything. */
  predicate OneRegistration(steps: seq<Step>) { forall k :: 0 < k < |steps| ==> !steps[k].Register? }

  /** A later hasty registration also harms a test whose own registration was safe:
      "a" was new when test 0 got it, but test 0 loses its cancel entry to test 1. */
  lemma {:induction false} HastyReuseTakesCancel() returns (states: seq<State>, steps: seq<Step>)
    ensures IsRun(states, steps) && |steps| > 0 && steps[0] == Register("a", Serve) && Quiet(states[0], "a")
    ensures var s := states[|steps|]; |s.tests| == 2 && Unfinished(s.tests[0]) && !Kept(s, 0)
  {
    states, steps := ReachRetrieved();
    var s := states[|steps|];
    states, steps := Extend(states, steps, Register("a", Serve), DoRegister(s, "a", Serve));
  }

  /** Careless reuse can end the process, and with it all other tests: the stale
      retrieval removes the entry of test 1, a third registration follows, test 1
      delivers into the channel of test 2 and closes it, and test 2 is about to
      send on a closed channel. */
  lemma {:induction false} ReusePanics() returns (states: seq<State>, steps: seq<Step>)
    ensures IsRun(states, steps)
    ensures var s := states[|steps|]; |s.tests| == 3 && AboutToPanic(s, 2)
  {
    states, steps := ReachReuse();
    var s1 := DoReceive(states[|steps|], 1, 0);
    states, steps := Extend(states, steps, Receive(1), s1);
    var s2 := DoRemove(s1, 1);
    states, steps := Extend(states, steps, Remove(1), s2);
    assert s2.resultC == map[];
    var s3 := DoRegister(s2, "a", Serve);
    states, steps := Extend(states, steps, Register("a", Serve), s3);
    states, steps := DeliverInto(states, steps, s3);
  }

  lemma {:induction false} DeliverInto(states: seq<State>, steps: seq<Step>, s: State)
    returns (states': seq<State>, steps': seq<Step>)
    requires IsRun(states, steps) && states[|steps|] == s
    requires |s.tests| == |s.chans| == 3 && Lookup(s.resultC, "a") == Some(2)
    requires s.tests[1] == s.tests[2] == NEW_TEST && s.chans[2] == NEW_CHAN
    ensures IsRun(states', steps') && |states'[|steps'|].tests| == 3 && AboutToPanic(states'[|steps'|], 2)
  {
    var s1 := SetPc(s, 1, Fetched(Some(2)));
    states', steps' := Extend(states, steps, Fetch(1), s1);
    var s2 := PutResult(s1, 1, 2, Sent(Some(2)));
    states', steps' := Extend(states', steps', Send(1), s2);
    var s3 := DoClose(s2, 1, 2);
    states', steps' := Extend(states', steps', Close(1), s3);
    states', steps' := Extend(states', steps', Fetch(2), SetPc(s3, 2, Fetched(Some(2))));
  }

  /** A command with two retrievers waiting for its result. */
  function CommandWaiting(): State {
    State([Test("a", Command, Working, false, 0)], [NEW_CHAN], map["a" := 0], map["a" := 0],
          [Retriever("a", Waiting(0)), Retriever("a", Waiting(0))], [], {}, false)
  }

  lemma {:induction false} ReachCommandWaiting() returns (states: seq<State>, steps: seq<Step>)
    ensures IsRun(states, steps) && states[|steps|] == CommandWaiting()
    ensures steps == [Register("a", Command), Request("a"), Request("a")]
  {
    var s0 := State([], [], map[], map[], [], [], {}, false);
    var s1 := CommandWaiting().(retrievers := []);
    states, steps := [s0], [];
    states, steps := Extend(states, steps, Register("a", Command), s1);
    var s2 := s1.(retrievers := [Retriever("a", Waiting(0))]);
    states, steps := Extend(states, steps, Request("a"), s2);
    states, steps := Extend(states, steps, Request("a"), CommandWaiting());
  }

  /** The first of them has taken the result: the other one waits at a channel
      that is never closed, although the ID was used only once. */
  lemma {:induction false} ReachSpent() returns (states: seq<State>, steps: seq<Step>)
    ensures FreshRun(states, steps, "a")
    ensures var s := states[|steps|]; Spent(s, 0) && |s.retrievers| == 2 && s.retrievers[1].pc == Waiting(0)
  {
    states, steps := ReachCommandWaiting();
    var s := PutResult(CommandWaiting(), 0, 0, Closed);
    states, steps := Extend(states, steps, CommandSend(0), s);
    states, steps := Extend(states, steps, Receive(0), DoReceive(s, 0, 0));
    StartsEmpty(states, steps);
    assert OneRegistration(steps);
  }
}
