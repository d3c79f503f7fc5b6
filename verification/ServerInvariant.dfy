/** What every step of the server keeps: indices never cross IDs, so an ID is
    affected only by steps under that ID, and the accounting of an ID that is used
    safely is kept whatever happens under the others. */
module ServerInvariant {
  import opened Basics
  import opened ServerProtocol

  // ----- Indices stay within an ID -----

  /** c names a test of this ID, if it names one at all. */
  predicate Names(s: State, c: Option<nat>, id: string) {
    c.Some? ==> c.value < |s.tests| && s.tests[c.value].id == id
  }

  predicate PcNames(s: State, t: Test) {
    && (t.pc.Fetched? || t.pc.Sent? ==> Names(s, t.pc.c, t.id))
    && (t.pc.Releasing? || t.pc.EarlyReleasing? ==> Names(s, t.pc.cancel, t.id))
  }

  /** Map entries, program counters, retrievers and aborts refer only to tests of
      their own ID. */
  ghost predicate Named(s: State) {
    && |s.chans| == |s.tests|
    && (forall i :: i in s.retrieved ==> i < |s.tests|)
    && (forall i :: 0 <= i < |s.tests| ==> PcNames(s, s.tests[i]))
    && (forall r :: 0 <= r < |s.retrievers| ==> Names(s, ChannelOf(s.retrievers[r]), s.retrievers[r].id))
    && (forall x :: 0 <= x < |s.aborters| ==> Names(s, s.aborters[x].cancel, s.aborters[x].id))
    && (forall id :: Names(s, Lookup(s.resultC, id), id))
    && (forall id :: Names(s, Lookup(s.testCancel, id), id))
  }

  /** Tests keep their places and IDs. */
  ghost predicate IdsExtend(s: State, s': State) {
    |s.tests| <= |s'.tests| && forall i :: 0 <= i < |s.tests| ==> s'.tests[i].id == s.tests[i].id
  }

  lemma {:induction false} TestStepKeepsIds(s: State, a: Step)
    requires Enabled(s, a) && ByTest(a)
    ensures IdsExtend(s, Apply(s, a)) && |Apply(s, a).tests| == |s.tests|
  {}

  lemma {:induction false} StepKeepsIds(s: State, a: Step)
    requires Enabled(s, a)
    ensures IdsExtend(s, Apply(s, a))
  {
    if ByTest(a) {
      TestStepKeepsIds(s, a);
    }
  }

  lemma {:induction false} StillNames(s: State, s': State, c: Option<nat>, id: string)
    requires IdsExtend(s, s') && Names(s, c, id)
    ensures Names(s', c, id)
  {}

  /** Whatever was not touched still names the right tests. */
  lemma {:induction false} NamedAfter(s: State, s': State)
    requires Named(s) && IdsExtend(s, s') && |s'.chans| == |s'.tests|
    requires forall i :: i in s'.retrieved ==> i in s.retrieved || i < |s'.tests|
    requires forall i :: 0 <= i < |s'.tests| ==>
                 (i < |s.tests| && s'.tests[i].pc == s.tests[i].pc) || PcNames(s', s'.tests[i])
    requires forall r :: 0 <= r < |s'.retrievers| ==>
                 || (r < |s.retrievers| && s'.retrievers[r] == s.retrievers[r])
                 || Names(s', ChannelOf(s'.retrievers[r]), s'.retrievers[r].id)
    requires forall x :: 0 <= x < |s'.aborters| ==>
                 || (x < |s.aborters| && s'.aborters[x] == s.aborters[x])
                 || Names(s', s'.aborters[x].cancel, s'.aborters[x].id)
    requires forall id :: Lookup(s'.resultC, id) == Lookup(s.resultC, id) || Names(s', Lookup(s'.resultC, id), id)
    requires forall id ::
               Lookup(s'.testCancel, id) == Lookup(s.testCancel, id) || Names(s', Lookup(s'.testCancel, id), id)
    ensures Named(s')
  {
    forall i | 0 <= i < |s'.tests| ensures PcNames(s', s'.tests[i]) {
      assert i < |s.tests| ==> PcNames(s, s.tests[i]);
    }
    forall r | 0 <= r < |s'.retrievers| ensures Names(s', ChannelOf(s'.retrievers[r]), s'.retrievers[r].id) {
      assert r < |s.retrievers| ==> Names(s, ChannelOf(s.retrievers[r]), s.retrievers[r].id);
    }
    forall id ensures Names(s', Lookup(s'.resultC, id), id) && Names(s', Lookup(s'.testCancel, id), id) {
      StillNames(s, s', Lookup(s.resultC, id), id);
      StillNames(s, s', Lookup(s.testCancel, id), id);
    }
  }

  /** What a step of test i leaves alone. */
  lemma {:induction false} TestStepRest(s: State, a: Step)
    requires Enabled(s, a) && ByTest(a) && |s.chans| == |s.tests|
    ensures var s' := Apply(s, a);
            && |s'.chans| == |s'.tests| == |s.tests| && s'.retrieved == s.retrieved && s'.retrievers == s.retrievers
            && s'.aborters == s.aborters && s'.resultC == s.resultC && s'.shutdown == s.shutdown
            && (forall j :: 0 <= j < |s.tests| && j != a.i ==> s'.tests[j].pc == s.tests[j].pc)
            && (s'.testCancel == s.testCancel || s'.testCancel == s.testCancel - {s.tests[a.i].id})
  {}

  /** Where the new program counter of test i gets its index from. */
  lemma {:induction false} TestStepPc(s: State, a: Step)
    requires Enabled(s, a) && ByTest(a)
    ensures var t, t' := s.tests[a.i], Apply(s, a).tests[a.i];
            && t'.id == t.id
            && (t'.pc.Fetched? ==> t'.pc.c == Lookup(s.resultC, t.id))
            && (t'.pc.Sent? ==> t.pc.Fetched? && t'.pc.c == t.pc.c)
            && (t'.pc.Releasing? || t'.pc.EarlyReleasing? ==> t'.pc.cancel == Lookup(s.testCancel, t.id))
  {
    match a
    case Fetch(_) =>
    case Send(_) =>
    case Close(_) =>
    case Release(_) =>
    case CancelSelf(i) => CancelKeepsPc(SetPc(s, i, Done), s.tests[i].pc.cancel, i);
    case CommandSend(_) =>
    case EarlyRelease(_) =>
    case EarlyCancel(i) => CancelKeepsPc(SetPc(s, i, EarlySend), s.tests[i].pc.cancel, i);
  }

  lemma {:induction false} CancelKeepsPc(s: State, cancel: Option<nat>, i: nat)
    requires i < |s.tests|
    ensures |Cancel(s, cancel).tests| == |s.tests|
    ensures Cancel(s, cancel).tests[i].pc == s.tests[i].pc && Cancel(s, cancel).tests[i].id == s.tests[i].id
  {}

  lemma {:induction false} TestStepNames(s: State, a: Step)
    requires Enabled(s, a) && ByTest(a) && IdsExtend(s, Apply(s, a)) && PcNames(s, s.tests[a.i])
    requires Names(s, Lookup(s.resultC, s.tests[a.i].id), s.tests[a.i].id)
    requires Names(s, Lookup(s.testCancel, s.tests[a.i].id), s.tests[a.i].id)
    ensures PcNames(Apply(s, a), Apply(s, a).tests[a.i])
  {
    TestStepPc(s, a);
    StillPcNames(s, Apply(s, a), s.tests[a.i], Apply(s, a).tests[a.i]);
  }

  lemma {:induction false} StillPcNames(s: State, s': State, t: Test, t': Test)
    requires IdsExtend(s, s') && PcNames(s, t) && t'.id == t.id
    requires Names(s, Lookup(s.resultC, t.id), t.id) && Names(s, Lookup(s.testCancel, t.id), t.id)
    requires t'.pc.Fetched? ==> t'.pc.c == Lookup(s.resultC, t.id)
    requires t'.pc.Sent? ==> t.pc.Fetched? && t'.pc.c == t.pc.c
    requires t'.pc.Releasing? || t'.pc.EarlyReleasing? ==> t'.pc.cancel == Lookup(s.testCancel, t.id)
    ensures PcNames(s', t')
  {}

  lemma {:induction false} TestStepKeepsNamed(s: State, a: Step)
    requires Named(s) && Enabled(s, a) && ByTest(a)
    ensures Named(Apply(s, a))
  {
    TestStepKeepsIds(s, a);
    TestStepRest(s, a);
    TestStepNames(s, a);
    NamedAfter(s, Apply(s, a));
  }

  lemma {:induction false} RegisterKeepsNamed(s: State, id: string, kind: Kind)
    requires Named(s)
    ensures Named(DoRegister(s, id, kind))
  {
    NamedAfter(s, DoRegister(s, id, kind));
  }

  lemma {:induction false} RequestKeepsNamed(s: State, id: string)
    requires Named(s)
    ensures Named(DoRequest(s, id))
  {
    assert Names(s, Lookup(s.resultC, id), id);
    NamedAfter(s, DoRequest(s, id));
  }

  lemma {:induction false} RetrieverStepKeepsNamed(s: State, a: Step)
    requires Named(s) && Enabled(s, a) && (a.Receive? || a.Remove? || a.LeaveOnShutdown?)
    ensures Named(Apply(s, a))
  {
    assert Names(s, ChannelOf(s.retrievers[a.r]), s.retrievers[a.r].id);
    NamedAfter(s, Apply(s, a));
  }

  lemma {:induction false} AbortKeepsNamed(s: State, a: Step)
    requires Named(s) && Enabled(s, a) && (a.AbortLookup? || a.AbortCancel? || a.Shutdown?)
    ensures Named(Apply(s, a))
  {
    if a.AbortLookup? {
      assert Names(s, Lookup(s.testCancel, a.id), a.id);
    }
    NamedAfter(s, Apply(s, a));
  }

  lemma {:induction false} StepKeepsNamed(s: State, a: Step)
    requires Named(s) && Enabled(s, a)
    ensures Named(Apply(s, a))
  {
    if ByTest(a) {
      TestStepKeepsNamed(s, a);
    } else if a.Register? {
      RegisterKeepsNamed(s, a.id, a.kind);
    } else if a.Request? {
      RequestKeepsNamed(s, a.id);
    } else if a.Receive? || a.Remove? || a.LeaveOnShutdown? {
      RetrieverStepKeepsNamed(s, a);
    } else {
      AbortKeepsNamed(s, a);
    }
  }

  lemma {:induction false} RunKeepsNamed(states: seq<State>, steps: seq<Step>, k: nat)
    requires Continues(states, steps) && Named(states[0]) && k < |states|
    ensures Named(states[k])
  {
    if k == 0 {
      assert states[k] == states[0];
    } else {
      RunKeepsNamed(states, steps, k - 1);
      RunStep(states, steps, k - 1);
      NextKeepsNamed(states[k - 1], steps[k - 1], states[k]);
    }
  }

  lemma {:induction false} NextKeepsNamed(s: State, a: Step, s': State)
    requires Named(s) && Next(s, a, s')
    ensures Named(s')
  {
    StepKeepsNamed(s, a);
  }

  // ----- Steps under other IDs -----

  /** Nothing about this ID has changed, except that contexts may have ended. */
  ghost predicate Frame(s: State, s': State, id: string) {
    && IdsExtend(s, s') && |s.chans| == |s.tests| && |s'.chans| == |s'.tests|
    && (forall i :: 0 <= i < |s.tests| && s.tests[i].id == id ==> SameTest(s, s', i))
    && (forall i :: |s.tests| <= i < |s'.tests| ==> s'.tests[i].id != id)
    && Lookup(s'.resultC, id) == Lookup(s.resultC, id) && Lookup(s'.testCancel, id) == Lookup(s.testCancel, id)
    && |s.retrievers| <= |s'.retrievers|
    && (forall r :: 0 <= r < |s.retrievers| ==> SameRetriever(s.retrievers[r], s'.retrievers[r], id))
    && (forall r :: |s.retrievers| <= r < |s'.retrievers| ==> s'.retrievers[r].id != id)
  }

  predicate SameTest(s: State, s': State, i: nat)
    requires i < |s.tests| == |s.chans| && i < |s'.tests| == |s'.chans|
  {
    && s'.tests[i] == s.tests[i].(cancelled := s'.tests[i].cancelled)
    && s'.chans[i] == s.chans[i] && (i in s'.retrieved <==> i in s.retrieved)
  }

  predicate SameRetriever(r: Retriever, r': Retriever, id: string) { r'.id == r.id && (r.id == id ==> r' == r) }

  /** The step only looks up or cancels, or is a registration that is refused. */
  predicate Harmless(s: State, a: Step) {
    a.AbortLookup? || a.AbortCancel? || a.Shutdown? || (a.Register? && !Accepted(s, a))
  }

  /** The ID a step is taken under. */
  function StepId(s: State, a: Step): string
    requires Enabled(s, a)
  {
    if ByTest(a) then s.tests[a.i].id
    else
      match a
      case Register(id, _) => id
      case Request(id) => id
      case Receive(r) => s.retrievers[r].id
      case Remove(r) => s.retrievers[r].id
      case LeaveOnShutdown(r) => s.retrievers[r].id
      case AbortLookup(id) => id
      case AbortCancel(x) => s.aborters[x].id
      case _ => ""
  }

  lemma {:induction false} SetPcFrames(s: State, i: nat, pc: TestPc, id: string)
    requires |s.chans| == |s.tests| && i < |s.tests| && s.tests[i].id != id
    ensures Frame(s, SetPc(s, i, pc), id)
  {}

  lemma {:induction false} PutFrames(s: State, i: nat, c: nat, pc: TestPc, id: string)
    requires |s.chans| == |s.tests| && i < |s.tests| && s.tests[i].id != id && c < |s.tests| && s.tests[c].id != id
    ensures Frame(s, PutResult(s, i, c, pc), id)
  {}

  lemma {:induction false} CloseFrames(s: State, i: nat, c: nat, id: string)
    requires |s.chans| == |s.tests| && i < |s.tests| && s.tests[i].id != id && c < |s.tests| && s.tests[c].id != id
    ensures Frame(s, DoClose(s, i, c), id)
  {}

  lemma {:induction false} ReleaseFrames(s: State, i: nat, early: bool, id: string)
    requires |s.chans| == |s.tests| && i < |s.tests| && s.tests[i].id != id
    ensures Frame(s, DoRelease(s, i, early), id)
  {}

  lemma {:induction false} CancelFrames(s: State, cancel: Option<nat>, id: string)
    requires |s.chans| == |s.tests|
    ensures Frame(s, Cancel(s, cancel), id)
  {}

  lemma {:induction false} FramesCompose(s: State, t: State, u: State, id: string)
    requires Frame(s, t, id) && Frame(t, u, id)
    ensures Frame(s, u, id)
  {
    forall i | 0 <= i < |s.tests| && s.tests[i].id == id ensures SameTest(s, u, i) {
      assert SameTest(s, t, i) && SameTest(t, u, i);
    }
    forall r | 0 <= r < |s.retrievers| ensures SameRetriever(s.retrievers[r], u.retrievers[r], id) {
      assert SameRetriever(s.retrievers[r], t.retrievers[r], id);
      assert SameRetriever(t.retrievers[r], u.retrievers[r], id);
    }
    forall r | |s.retrievers| <= r < |u.retrievers| ensures u.retrievers[r].id != id {
      assert r < |t.retrievers| ==> SameRetriever(t.retrievers[r], u.retrievers[r], id);
    }
  }

  lemma {:induction false} CancelSelfFrames(s: State, i: nat, pc: TestPc, cancel: Option<nat>, id: string)
    requires |s.chans| == |s.tests| && i < |s.tests| && s.tests[i].id != id
    ensures Frame(s, Cancel(SetPc(s, i, pc), cancel), id)
  {
    SetPcFrames(s, i, pc, id);
    CancelFrames(SetPc(s, i, pc), cancel, id);
    FramesCompose(s, SetPc(s, i, pc), Cancel(SetPc(s, i, pc), cancel), id);
  }

  lemma {:induction false} OtherTestStepFrames(s: State, a: Step, id: string)
    requires Named(s) && Enabled(s, a) && ByTest(a) && s.tests[a.i].id != id
    ensures Frame(s, Apply(s, a), id)
  {
    var i, t := a.i, s.tests[a.i];
    assert PcNames(s, t);
    match a
    case Fetch(_) => SetPcFrames(s, i, Fetched(Lookup(s.resultC, t.id)), id);
    case Send(_) => PutFrames(s, i, t.pc.c.value, Sent(t.pc.c), id);
    case Close(_) => CloseFrames(s, i, t.pc.c.value, id);
    case Release(_) => ReleaseFrames(s, i, false, id);
    case CancelSelf(_) => CancelSelfFrames(s, i, Done, t.pc.cancel, id);
    case CommandSend(_) => PutFrames(s, i, i, if t.pc.Working? then Closed else Done, id);
    case EarlyRelease(_) => ReleaseFrames(s, i, true, id);
    case EarlyCancel(_) => CancelSelfFrames(s, i, EarlySend, t.pc.cancel, id);
  }

  lemma {:induction false} RegisterFrames(s: State, a: Step, id: string)
    requires |s.chans| == |s.tests| && a.Register? && (Accepted(s, a) ==> a.id != id)
    ensures Frame(s, DoRegister(s, a.id, a.kind), id)
  {}

  lemma {:induction false} ReceiveFrames(s: State, r: nat, c: nat, id: string)
    requires |s.chans| == |s.tests| && r < |s.retrievers| && s.retrievers[r].id != id
    requires c < |s.tests| && s.tests[c].id != id
    ensures Frame(s, DoReceive(s, r, c), id)
  {}

  lemma {:induction false} RemoveFrames(s: State, r: nat, id: string)
    requires |s.chans| == |s.tests| && r < |s.retrievers| && s.retrievers[r].id != id && s.retrievers[r].pc.Received?
    requires s.retrievers[r].pc.c < |s.tests| && s.tests[s.retrievers[r].pc.c].id != id
    ensures Frame(s, DoRemove(s, r), id)
  {}

  lemma {:induction false} OtherStepFrames(s: State, a: Step, id: string)
    requires Named(s) && Enabled(s, a) && !ByTest(a) && (Harmless(s, a) || StepId(s, a) != id)
    ensures Frame(s, Apply(s, a), id)
  {
    if a.Receive? || a.Remove? {
      assert Names(s, ChannelOf(s.retrievers[a.r]), s.retrievers[a.r].id);
    }
    match a
    case Register(_, _) => RegisterFrames(s, a, id);
    case Request(_) => RequestFrames(s, a.id, id);
    case Receive(r) => ReceiveFrames(s, r, s.retrievers[r].pc.c, id);
    case Remove(r) => RemoveFrames(s, r, id);
    case LeaveOnShutdown(r) => LeaveFrames(s, r, id);
    case AbortLookup(_) => SameFrames(s, Apply(s, a), id);
    case AbortCancel(x) =>
      CancelFrames(s, s.aborters[x].cancel, id);
      SameFrames(Cancel(s, s.aborters[x].cancel), Apply(s, a), id);
      FramesCompose(s, Cancel(s, s.aborters[x].cancel), Apply(s, a), id);
    case Shutdown => ShutdownFrames(s, id);
  }

  lemma {:induction false} RequestFrames(s: State, other: string, id: string)
    requires |s.chans| == |s.tests| && other != id
    ensures Frame(s, DoRequest(s, other), id)
  {}

  lemma {:induction false} LeaveFrames(s: State, r: nat, id: string)
    requires |s.chans| == |s.tests| && r < |s.retrievers| && s.retrievers[r].pc.Waiting? && s.retrievers[r].id != id
    ensures Frame(s, DoLeave(s, r), id)
  {}

  lemma {:induction false} SameFrames(s: State, s': State, id: string)
    requires |s.chans| == |s.tests| && s' == s.(aborters := s'.aborters)
    ensures Frame(s, s', id)
  {}

  lemma {:induction false} ShutdownFrames(s: State, id: string)
    requires |s.chans| == |s.tests|
    ensures Frame(s, s.(shutdown := true, tests := AllCancelled(s.tests)), id)
  {}

  // ----- The accounting of one ID -----

  /** Each program counter belongs to its kind, and refers to the own channel
      and the own cancel function. */
  predicate PcOk(t: Test, i: nat) {
    && (t.pc.Fetched? || t.pc.Sent? ==> t.kind.Serve? && t.pc.c == Some(i))
    && (t.pc.EarlyReleasing? || t.pc.EarlySend? ==> t.kind.Command?)
    && (t.pc.Releasing? || t.pc.EarlyReleasing? ==> t.pc.cancel == Some(i))
    && t.sends == (if HasSent(t) then 1 else 0)
  }

  predicate ChanOk(t: Test, ch: Chan) {
    && (ch.full || ch.taken <==> HasSent(t))
    && !(ch.full && ch.taken)
    && (ch.closed <==> HasClosed(t))
  }

  predicate Maps(m: map<string, nat>, id: string, i: nat) { Lookup(m, id) == Some(i) }

  /** Test i has its channel in resultC until its result was retrieved, and its
      cancel function in testCancel until it has finished. */
  predicate TestOk(s: State, i: nat)
    requires i < |s.tests| == |s.chans|
  {
    && PcOk(s.tests[i], i) && ChanOk(s.tests[i], s.chans[i])
    && (i in s.retrieved ==> s.chans[i].taken)
    && (Maps(s.resultC, s.tests[i].id, i) <==> i !in s.retrieved)
    && (Maps(s.testCancel, s.tests[i].id, i) <==> Unfinished(s.tests[i]))
  }

  predicate Taken(s: State, c: Option<nat>) { c.Some? && c.value < |s.chans| && s.chans[c.value].taken }

  /** Told that the result was retrieved already. */
  predicate WasTooLate(r: Retriever) { r.pc.Left? && r.pc.outcome.AlreadyRetrieved? }

  predicate RetrieverOk(s: State, r: Retriever) {
    && (r.pc.Received? || Succeeded(r) || WasTooLate(r) ==> Taken(s, ChannelOf(r)))
    && (MayRemove(s, r) ==> Lookup(s.resultC, r.id) in {None, ChannelOf(r)})
  }

  predicate BothGot(q: Retriever, r: Retriever) {
    Succeeded(q) && Succeeded(r) && ChannelOf(q) == ChannelOf(r)
  }

  ghost predicate OneWinner(s: State, id: string) {
    forall q, r :: 0 <= q < r < |s.retrievers| && s.retrievers[q].id == s.retrievers[r].id == id ==>
      !BothGot(s.retrievers[q], s.retrievers[r])
  }

  ghost predicate TestsOk(s: State, id: string)
    requires |s.chans| == |s.tests|
  {
    forall i :: 0 <= i < |s.tests| && s.tests[i].id == id ==> TestOk(s, i)
  }

  ghost predicate RetrieversOk(s: State, id: string) {
    && (forall r :: 0 <= r < |s.retrievers| && s.retrievers[r].id == id ==> RetrieverOk(s, s.retrievers[r]))
    && OneWinner(s, id)
  }

  ghost predicate Inv(s: State, id: string) {
    Named(s) && TestsOk(s, id) && RetrieversOk(s, id)
  }

  lemma {:induction false} FrameKeepsRetriever(s: State, s': State, id: string, r: Retriever)
    requires Named(s) && Frame(s, s', id) && r.id == id && Names(s, ChannelOf(r), id) && RetrieverOk(s, r)
    ensures RetrieverOk(s', r)
  {
    if ChannelOf(r).Some? {
      assert SameTest(s, s', ChannelOf(r).value);
    }
  }

  lemma {:induction false} FrameKeepsTests(s: State, s': State, id: string)
    requires Inv(s, id) && Frame(s, s', id)
    ensures TestsOk(s', id)
  {
    forall i | 0 <= i < |s'.tests| && s'.tests[i].id == id ensures TestOk(s', i) {
      assert i < |s.tests|;
      assert SameTest(s, s', i) && TestOk(s, i);
    }
  }

  lemma {:induction false} FrameKeepsRetrievers(s: State, s': State, id: string)
    requires Inv(s, id) && Frame(s, s', id)
    ensures RetrieversOk(s', id)
  {
    forall r | 0 <= r < |s'.retrievers| && s'.retrievers[r].id == id
      ensures r < |s.retrievers| && s'.retrievers[r] == s.retrievers[r] && RetrieverOk(s', s'.retrievers[r])
    {
      assert r < |s.retrievers|;
      assert SameRetriever(s.retrievers[r], s'.retrievers[r], id);
      FrameKeepsRetriever(s, s', id, s.retrievers[r]);
    }
  }

  lemma {:induction false} FrameKeepsInv(s: State, s': State, id: string)
    requires Inv(s, id) && Frame(s, s', id) && Named(s')
    ensures Inv(s', id)
  {
    FrameKeepsTests(s, s', id);
    FrameKeepsRetrievers(s, s', id);
  }

  // ----- Steps under the same ID -----

  /** A step of test i's own goroutine: it moves the test from s.tests[i] to t
      and its channel to ch, and drops the cancel entry if that finishes it. */
  function Moved(s: State, i: nat, t: Test, ch: Chan): State
    requires i < |s.tests| == |s.chans|
  {
    s.(tests := s.tests[i := t], chans := s.chans[i := ch],
       testCancel := if Unfinished(s.tests[i]) && !Unfinished(t) then s.testCancel - {t.id} else s.testCancel)
  }

  predicate LegalMove(t: Test, ch: Chan, t': Test, ch': Chan, i: nat) {
    && t'.id == t.id && t'.kind == t.kind
    && PcOk(t', i) && ChanOk(t', ch')
    && (Unfinished(t') ==> Unfinished(t))
    && ch'.taken == ch.taken
  }

  lemma {:induction false} MoveKeepsTests(s: State, i: nat, t: Test, ch: Chan)
    requires i < |s.tests| == |s.chans| && TestsOk(s, t.id) && LegalMove(s.tests[i], s.chans[i], t, ch, i)
    ensures TestsOk(Moved(s, i, t, ch), t.id)
  {
    var s' := Moved(s, i, t, ch);
    forall j | 0 <= j < |s'.tests| && s'.tests[j].id == t.id ensures TestOk(s', j) {
      assert TestOk(s, j) && TestOk(s, i);
    }
  }

  lemma {:induction false} MoveKeepsRetrievers(s: State, i: nat, t: Test, ch: Chan)
    requires i < |s.tests| == |s.chans| && RetrieversOk(s, t.id) && LegalMove(s.tests[i], s.chans[i], t, ch, i)
    ensures RetrieversOk(Moved(s, i, t, ch), t.id)
  {
    var s' := Moved(s, i, t, ch);
    forall r | 0 <= r < |s.retrievers| && s.retrievers[r].id == t.id ensures RetrieverOk(s', s'.retrievers[r]) {
      assert RetrieverOk(s, s.retrievers[r]);
    }
  }

  /** s' is s with one legal move of test i. */
  ghost predicate IsMove(s: State, s': State, i: nat) {
    && i < |s.tests| == |s.chans| && i < |s'.tests| == |s'.chans|
    && LegalMove(s.tests[i], s.chans[i], s'.tests[i], s'.chans[i], i)
    && s' == Moved(s, i, s'.tests[i], s'.chans[i])
  }

  lemma {:induction false} MoveKeepsInv(s: State, s': State, i: nat, id: string)
    requires Inv(s, id) && Named(s') && IsMove(s, s', i) && s.tests[i].id == id
    ensures Inv(s', id)
  {
    MoveKeepsTests(s, i, s'.tests[i], s'.chans[i]);
    MoveKeepsRetrievers(s, i, s'.tests[i], s'.chans[i]);
  }

  lemma {:induction false} FetchMoves(s: State, i: nat)
    requires i < |s.tests| == |s.chans| && TestOk(s, i) && s.tests[i].pc.Working? && s.tests[i].kind.Serve?
    ensures IsMove(s, SetPc(s, i, Fetched(Lookup(s.resultC, s.tests[i].id))), i)
  {
    assert s.chans[i := s.chans[i]] == s.chans;
  }

  lemma {:induction false} PutMoves(s: State, i: nat, pc: TestPc)
    requires i < |s.tests| == |s.chans| && TestOk(s, i) && CanSend(s, i) && !HasSent(s.tests[i])
    requires var t := s.tests[i];
             (t.pc.Fetched? && pc == Sent(Some(i))) ||
             (t.kind.Command? && ((t.pc.Working? && pc == Closed) || (t.pc.EarlySend? && pc == Done)))
    ensures IsMove(s, PutResult(s, i, i, pc), i)
  {}

  lemma {:induction false} CloseMoves(s: State, i: nat)
    requires i < |s.tests| == |s.chans| && TestOk(s, i) && s.tests[i].pc == Sent(Some(i))
    ensures IsMove(s, DoClose(s, i, i), i)
  {}

  lemma {:induction false} ReleaseMoves(s: State, i: nat, early: bool)
    requires i < |s.tests| == |s.chans| && TestOk(s, i)
    requires if early then s.tests[i].pc.Working? && s.tests[i].kind.Command? else s.tests[i].pc.Closed?
    ensures IsMove(s, DoRelease(s, i, early), i)
  {
    assert s.chans[i := s.chans[i]] == s.chans;
  }

  lemma {:induction false} CancelMoves(s: State, i: nat, early: bool)
    requires i < |s.tests| == |s.chans| && TestOk(s, i)
    requires if early then s.tests[i].pc.EarlyReleasing? else s.tests[i].pc.Releasing?
    ensures IsMove(s, Cancel(SetPc(s, i, if early then EarlySend else Done), s.tests[i].pc.cancel), i)
  {
    assert s.chans[i := s.chans[i]] == s.chans;
  }

  lemma {:induction false} TestStepMoves(s: State, a: Step)
    requires Enabled(s, a) && ByTest(a) && |s.chans| == |s.tests| && TestOk(s, a.i)
    ensures IsMove(s, Apply(s, a), a.i)
  {
    var i := a.i;
    match a
    case Fetch(_) => FetchMoves(s, i);
    case Send(_) => PutMoves(s, i, Sent(Some(i)));
    case Close(_) => CloseMoves(s, i);
    case Release(_) => ReleaseMoves(s, i, false);
    case CancelSelf(_) => CancelMoves(s, i, false);
    case CommandSend(_) => PutMoves(s, i, if s.tests[i].pc.Working? then Closed else Done);
    case EarlyRelease(_) => ReleaseMoves(s, i, true);
    case EarlyCancel(_) => CancelMoves(s, i, true);
  }

  lemma {:induction false} RegisterKeepsTests(s: State, a: Step)
    requires Accepted(s, a) && Inv(s, a.id) && Quiet(s, a.id)
    ensures TestsOk(DoRegister(s, a.id, a.kind), a.id)
  {
    var s' := DoRegister(s, a.id, a.kind);
    forall i | 0 <= i < |s'.tests| && s'.tests[i].id == a.id ensures TestOk(s', i) {
      RegisterKeepsTest(s, a, i);
    }
  }

  lemma {:induction false} RegisterKeepsTest(s: State, a: Step, i: nat)
    requires Named(s) && Accepted(s, a) && i <= |s.tests|
    requires i < |s.tests| ==> s.tests[i].id == a.id && TestOk(s, i) && !Unfinished(s.tests[i])
    ensures TestOk(DoRegister(s, a.id, a.kind), i)
  {}

  lemma {:induction false} RegisterKeepsRetrievers(s: State, a: Step)
    requires Accepted(s, a) && Inv(s, a.id) && Quiet(s, a.id)
    ensures RetrieversOk(DoRegister(s, a.id, a.kind), a.id)
  {
    var s' := DoRegister(s, a.id, a.kind);
    forall r | 0 <= r < |s.retrievers| && s.retrievers[r].id == a.id ensures RetrieverOk(s', s'.retrievers[r]) {
      assert RetrieverOk(s, s.retrievers[r]) && !MayRemove(s, s.retrievers[r]);
    }
  }

  lemma {:induction false} RequestKeepsInv(s: State, id: string)
    requires Inv(s, id) && Named(DoRequest(s, id))
    ensures Inv(DoRequest(s, id), id)
  {
    var s' := DoRequest(s, id);
    forall i | 0 <= i < |s.tests| && s.tests[i].id == id ensures TestOk(s', i) {
      assert TestOk(s, i);
    }
    forall r | 0 <= r < |s'.retrievers| && s'.retrievers[r].id == id ensures RetrieverOk(s', s'.retrievers[r]) {
      assert r < |s.retrievers| ==> RetrieverOk(s, s.retrievers[r]);
    }
  }

  lemma {:induction false} ReceiveKeepsTests(s: State, r: nat, c: nat)
    requires r < |s.retrievers| && Inv(s, s.retrievers[r].id)
    requires s.retrievers[r].pc == Waiting(c) && CanReceive(s, c)
    ensures TestsOk(DoReceive(s, r, c), s.retrievers[r].id) && DoReceive(s, r, c).chans[c].taken
  {
    var s', id := DoReceive(s, r, c), s.retrievers[r].id;
    assert Names(s, ChannelOf(s.retrievers[r]), id);
    assert TestOk(s, c);
    forall i | 0 <= i < |s'.tests| && s'.tests[i].id == id ensures TestOk(s', i) {
      assert TestOk(s, i);
    }
  }

  lemma {:induction false} ReceiveKeepsRetrievers(s: State, r: nat, c: nat)
    requires r < |s.retrievers| && Inv(s, s.retrievers[r].id)
    requires s.retrievers[r].pc == Waiting(c) && CanReceive(s, c) && DoReceive(s, r, c).chans[c].taken
    ensures RetrieversOk(DoReceive(s, r, c), s.retrievers[r].id)
  {
    var s', id := DoReceive(s, r, c), s.retrievers[r].id;
    assert Names(s, ChannelOf(s.retrievers[r]), id);
    assert TestOk(s, c);
    forall q | 0 <= q < |s.retrievers| && s.retrievers[q].id == id
      ensures RetrieverOk(s', s'.retrievers[q])
      ensures s.chans[c].full && Succeeded(s.retrievers[q]) ==> ChannelOf(s.retrievers[q]) != Some(c)
    {
      assert RetrieverOk(s, s.retrievers[q]);
    }
  }

  lemma {:induction false} RemoveKeepsTests(s: State, r: nat)
    requires r < |s.retrievers| && Inv(s, s.retrievers[r].id) && s.retrievers[r].pc.Received?
    ensures TestsOk(DoRemove(s, r), s.retrievers[r].id)
  {
    var s', me := DoRemove(s, r), s.retrievers[r];
    assert RetrieverOk(s, me) && Names(s, ChannelOf(me), me.id);
    forall i | 0 <= i < |s'.tests| && s'.tests[i].id == me.id ensures TestOk(s', i) {
      assert TestOk(s, i);
    }
  }

  lemma {:induction false} LeaveKeepsRetrievers(s: State, r: nat, s': State)
    requires r < |s.retrievers| && Inv(s, s.retrievers[r].id)
    requires || (s.retrievers[r].pc.Received? && s' == DoRemove(s, r))
             || (s.retrievers[r].pc.Waiting? && s' == DoLeave(s, r))
    ensures RetrieversOk(s', s.retrievers[r].id)
  {
    var id := s.retrievers[r].id;
    forall q | 0 <= q < |s.retrievers| && s.retrievers[q].id == id
      ensures RetrieverOk(s', s'.retrievers[q])
      ensures ChannelOf(s'.retrievers[q]) == ChannelOf(s.retrievers[q])
      ensures Succeeded(s'.retrievers[q]) == Succeeded(s.retrievers[q])
    {
      assert RetrieverOk(s, s.retrievers[q]);
    }
  }

  lemma {:induction false} LeaveKeepsTests(s: State, r: nat, id: string)
    requires r < |s.retrievers| && Inv(s, id) && s.retrievers[r].pc.Waiting?
    ensures TestsOk(DoLeave(s, r), id)
  {
    forall i | 0 <= i < |s.tests| && s.tests[i].id == id ensures TestOk(DoLeave(s, r), i) {
      assert TestOk(s, i);
    }
  }

  lemma {:induction false} RetrieverStepKeepsInv(s: State, a: Step)
    requires Enabled(s, a) && (a.Receive? || a.Remove? || a.LeaveOnShutdown?) && Inv(s, StepId(s, a))
    requires Named(Apply(s, a))
    ensures Inv(Apply(s, a), StepId(s, a))
  {
    match a
    case Receive(r) =>
      ReceiveKeepsTests(s, r, s.retrievers[r].pc.c);
      ReceiveKeepsRetrievers(s, r, s.retrievers[r].pc.c);
    case Remove(r) =>
      RemoveKeepsTests(s, r);
      LeaveKeepsRetrievers(s, r, DoRemove(s, r));
    case LeaveOnShutdown(r) =>
      LeaveKeepsTests(s, r, s.retrievers[r].id);
      LeaveKeepsRetrievers(s, r, DoLeave(s, r));
  }

  lemma {:induction false} OwnStepKeepsInv(s: State, a: Step)
    requires Enabled(s, a) && !Harmless(s, a) && Inv(s, StepId(s, a)) && SafeFor(s, a, StepId(s, a))
    requires Named(Apply(s, a))
    ensures Inv(Apply(s, a), StepId(s, a))
  {
    var id := StepId(s, a);
    if ByTest(a) {
      assert TestOk(s, a.i);
      TestStepMoves(s, a);
      MoveKeepsInv(s, Apply(s, a), a.i, id);
    } else if a.Register? {
      RegisterKeepsTests(s, a);
      RegisterKeepsRetrievers(s, a);
    } else if a.Request? {
      RequestKeepsInv(s, id);
    } else {
      RetrieverStepKeepsInv(s, a);
    }
  }

  /** Every step keeps the accounting of every ID that it uses safely, and of all
      other IDs anyway. */
  lemma {:induction false} StepKeepsInv(s: State, a: Step, id: string)
    requires Inv(s, id) && Enabled(s, a) && SafeFor(s, a, id)
    ensures Inv(Apply(s, a), id)
  {
    StepKeepsNamed(s, a);
    if Harmless(s, a) || StepId(s, a) != id {
      if ByTest(a) {
        OtherTestStepFrames(s, a, id);
      } else {
        OtherStepFrames(s, a, id);
      }
      FrameKeepsInv(s, Apply(s, a), id);
    } else {
      OwnStepKeepsInv(s, a);
    }
  }

  lemma {:induction false} NextKeepsInv(s: State, a: Step, s': State, id: string)
    requires Inv(s, id) && Next(s, a, s') && SafeFor(s, a, id)
    ensures Inv(s', id)
  {
    StepKeepsInv(s, a, id);
  }

  lemma {:induction false} Advance(states: seq<State>, steps: seq<Step>, k: nat, id: string)
    requires Continues(states, steps) && AllSafe(states, steps, id) && 0 < k < |states| && Inv(states[k - 1], id)
    ensures Inv(states[k], id)
  {
    RunStep(states, steps, k - 1);
    NextKeepsInv(states[k - 1], steps[k - 1], states[k], id);
  }

  lemma {:induction false} KeepsInv(states: seq<State>, steps: seq<Step>, k: nat, id: string)
    requires Continues(states, steps) && AllSafe(states, steps, id) && Inv(states[0], id) && k < |states|
    ensures Inv(states[k], id)
  {
    if k == 0 {
      assert states[k] == states[0];
    } else {
      KeepsInv(states, steps, k - 1, id);
      Advance(states, steps, k, id);
    }
  }

  lemma {:induction false} InitInv(s: State, id: string)
    requires Init(s)
    ensures Inv(s, id)
  {}

  lemma {:induction false} RunKeepsInv(states: seq<State>, steps: seq<Step>, k: nat, id: string)
    requires SafeRun(states, steps, id) && k < |states|
    ensures Inv(states[k], id)
  {
    InitInv(states[0], id);
    KeepsInv(states, steps, k, id);
  }
}
