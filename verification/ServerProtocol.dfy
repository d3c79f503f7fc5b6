/** The result protocol of the measurement server: RPC handlers, test goroutines
    and abort calls that share the two maps `resultC` and `testCancel`, and hand
    results over capacity-one channels. One step is one critical section or one
    channel operation; any interleaving is allowed. */
module ServerProtocol {
  import opened Basics

  /** RequestServer tests close their channel, RunCommand ones never do. */
  datatype Kind = Serve | Command

  /** Where the goroutine responsible for a test stands. The error paths of
      RunCommand release the context before they send (Early states). */
  datatype TestPc =
    | Working
    | Fetched(c: Option<nat>)      // deliverResult looked its channel up; None is a nil channel
    | Sent(c: Option<nat>)         // result is in the channel
    | Closed                       // channel closed, or a command's send done
    | Releasing(cancel: Option<nat>) // entry removed from testCancel, cancel function in hand
    | Done
    | EarlyReleasing(cancel: Option<nat>)
    | EarlySend

  /** `sends` counts the results this goroutine put into a channel. */
  datatype Test = Test(id: string, kind: Kind, pc: TestPc, cancelled: bool, sends: nat)

  /** `taken`: the buffered result has been received by someone. */
  datatype Chan = Chan(full: bool, closed: bool, taken: bool)

  datatype Outcome = Got | AlreadyRetrieved | NotFound | ShutDown

  datatype RetrieverPc =
    | Waiting(c: nat) | Received(c: nat, outcome: Outcome) | Left(from: Option<nat>, outcome: Outcome)
  datatype Retriever = Retriever(id: string, pc: RetrieverPc)

  /** An Abort call that found a cancel function and has not called it yet. */
  datatype Aborter = Aborter(id: string, cancel: Option<nat>)

  /** Test number i owns channel number i. `retrieved` collects the tests
      whose retrieval has run to its end, removing the entry from resultC. */
  datatype State = State(
    tests: seq<Test>, chans: seq<Chan>, resultC: map<string, nat>, testCancel: map<string, nat>,
    retrievers: seq<Retriever>, aborters: seq<Aborter>, retrieved: set<nat>, shutdown: bool)

  predicate Init(s: State) {
    s == State([], [], map[], map[], [], [], {}, false)
  }

  datatype Step =
    | Register(id: string, kind: Kind)
    | Fetch(i: nat)
    | Send(i: nat)
    | Close(i: nat)
    | Release(i: nat)
    | CancelSelf(i: nat)
    | CommandSend(i: nat)
    | EarlyRelease(i: nat)
    | EarlyCancel(i: nat)
    | Request(id: string)
    | Receive(r: nat)
    | Remove(r: nat)
    | LeaveOnShutdown(r: nat)
    | AbortLookup(id: string)
    | AbortCancel(a: nat)
    | Shutdown

  function Lookup(m: map<string, nat>, id: string): Option<nat> {
    if id in m then Some(m[id]) else None
  }

  predicate Enabled(s: State, a: Step) {
    match a
    case Register(id, kind) => |s.chans| == |s.tests|
    case Fetch(i) => i < |s.tests| && s.tests[i].pc.Working? && s.tests[i].kind.Serve?
    case Send(i) =>
      i < |s.tests| && s.tests[i].pc.Fetched? && s.tests[i].pc.c.Some? && CanSend(s, s.tests[i].pc.c.value)
    case Close(i) => i < |s.tests| && s.tests[i].pc.Sent? && s.tests[i].pc.c.Some? && IsOpen(s, s.tests[i].pc.c.value)
    case Release(i) => i < |s.tests| && s.tests[i].pc.Closed?
    case CancelSelf(i) => i < |s.tests| && s.tests[i].pc.Releasing?
    case CommandSend(i) =>
      i < |s.tests| && s.tests[i].kind.Command? && (s.tests[i].pc.Working? || s.tests[i].pc.EarlySend?) && CanSend(s, i)
    case EarlyRelease(i) => i < |s.tests| && s.tests[i].pc.Working? && s.tests[i].kind.Command?
    case EarlyCancel(i) => i < |s.tests| && s.tests[i].pc.EarlyReleasing?
    case Request(id) => true
    case Receive(r) => r < |s.retrievers| && s.retrievers[r].pc.Waiting? && CanReceive(s, s.retrievers[r].pc.c)
    case Remove(r) => r < |s.retrievers| && s.retrievers[r].pc.Received?
    case LeaveOnShutdown(r) => r < |s.retrievers| && s.retrievers[r].pc.Waiting? && s.shutdown
    case AbortLookup(id) => true
    case AbortCancel(x) => x < |s.aborters| && s.aborters[x].cancel.Some?
    case Shutdown => true
  }

  predicate IsOpen(s: State, c: nat) { c < |s.chans| && !s.chans[c].closed }

  /** A send neither blocks nor panics: the channel is open and has room. */
  predicate CanSend(s: State, c: nat) { IsOpen(s, c) && !s.chans[c].full }

  predicate CanReceive(s: State, c: nat) { c < |s.chans| && (s.chans[c].full || s.chans[c].closed) }

  function SetPc(s: State, i: nat, pc: TestPc): State
    requires i < |s.tests|
  {
    s.(tests := s.tests[i := s.tests[i].(pc := pc)])
  }

  /** Calls the cancel function of test `cancel`, if there is one. */
  function Cancel(s: State, cancel: Option<nat>): State {
    if cancel.Some? && cancel.value < |s.tests|
    then s.(tests := s.tests[cancel.value := s.tests[cancel.value].(cancelled := true)])
    else s
  }

  /** The end of the server context, of which every test context is a child. */
  function AllCancelled(tests: seq<Test>): (c: seq<Test>)
    ensures |c| == |tests| && forall i :: 0 <= i < |c| ==> c[i] == tests[i].(cancelled := true)
  {
    seq(|tests|, i requires 0 <= i < |tests| => tests[i].(cancelled := true))
  }

  function PutResult(s: State, i: nat, c: nat, pc: TestPc): State
    requires i < |s.tests| && c < |s.chans|
  {
    s.(tests := s.tests[i := s.tests[i].(pc := pc, sends := s.tests[i].sends + 1)],
       chans := s.chans[c := s.chans[c].(full := true)])
  }

  function DoRegister(s: State, id: string, kind: Kind): State {
    if id == "" || id in s.resultC then s
    else s.(tests := s.tests + [Test(id, kind, Working, s.shutdown, 0)],
            chans := s.chans + [Chan(false, false, false)],
            resultC := s.resultC[id := |s.tests|],
            testCancel := s.testCancel[id := |s.tests|])
  }

  function DoClose(s: State, i: nat, c: nat): State
    requires i < |s.tests| && c < |s.chans|
  {
    SetPc(s, i, Closed).(chans := s.chans[c := s.chans[c].(closed := true)])
  }

  /** finishTest's critical section: take the cancel function out of the map. */
  function DoRelease(s: State, i: nat, early: bool): State
    requires i < |s.tests|
  {
    var id := s.tests[i].id;
    var cancel := Lookup(s.testCancel, id);
    SetPc(s, i, if early then EarlyReleasing(cancel) else Releasing(cancel)).(testCancel := s.testCancel - {id})
  }

  function DoReceive(s: State, r: nat, c: nat): State
    requires r < |s.retrievers| && c < |s.chans|
  {
    if s.chans[c].full
    then s.(chans := s.chans[c := s.chans[c].(full := false, taken := true)],
            retrievers := s.retrievers[r := s.retrievers[r].(pc := Received(c, Got))])
    else s.(retrievers := s.retrievers[r := s.retrievers[r].(pc := Received(c, AlreadyRetrieved))])
  }

  function DoRemove(s: State, r: nat): State
    requires r < |s.retrievers| && s.retrievers[r].pc.Received?
  {
    var me := s.retrievers[r];
    s.(resultC := s.resultC - {me.id}, retrieved := s.retrieved + {me.pc.c},
       retrievers := s.retrievers[r := me.(pc := Left(Some(me.pc.c), me.pc.outcome))])
  }

  function DoLeave(s: State, r: nat): State
    requires r < |s.retrievers| && s.retrievers[r].pc.Waiting?
  {
    var me := s.retrievers[r];
    s.(retrievers := s.retrievers[r := me.(pc := Left(Some(me.pc.c), ShutDown))])
  }

  function DoRequest(s: State, id: string): State {
    s.(retrievers := s.retrievers +
         [Retriever(id, if id in s.resultC then Waiting(s.resultC[id]) else Left(None, NotFound))])
  }

  function DoAbortCancel(s: State, x: nat): State
    requires x < |s.aborters|
  {
    Cancel(s, s.aborters[x].cancel).(aborters := s.aborters[x := s.aborters[x].(cancel := None)])
  }

  function Apply(s: State, a: Step): State
    requires Enabled(s, a)
  {
    match a
    case Register(id, kind) => DoRegister(s, id, kind)
    case Fetch(i) => SetPc(s, i, Fetched(Lookup(s.resultC, s.tests[i].id)))
    case Send(i) => PutResult(s, i, s.tests[i].pc.c.value, Sent(s.tests[i].pc.c))
    case Close(i) => DoClose(s, i, s.tests[i].pc.c.value)
    case Release(i) => DoRelease(s, i, false)
    case CancelSelf(i) => Cancel(SetPc(s, i, Done), s.tests[i].pc.cancel)
    case CommandSend(i) => PutResult(s, i, i, if s.tests[i].pc.Working? then Closed else Done)
    case EarlyRelease(i) => DoRelease(s, i, true)
    case EarlyCancel(i) => Cancel(SetPc(s, i, EarlySend), s.tests[i].pc.cancel)
    case Request(id) => DoRequest(s, id)
    case Receive(r) => DoReceive(s, r, s.retrievers[r].pc.c)
    case Remove(r) => DoRemove(s, r)
    case LeaveOnShutdown(r) => DoLeave(s, r)
    case AbortLookup(id) => s.(aborters := s.aborters + [Aborter(id, Lookup(s.testCancel, id))])
    case AbortCancel(x) => DoAbortCancel(s, x)
    case Shutdown => s.(shutdown := true, tests := AllCancelled(s.tests))
  }

  /** A registration that is not refused for an empty or a still pending ID. */
  predicate Accepted(s: State, a: Step) { a.Register? && a.id != "" && a.id !in s.resultC }

  /** Result taken from a channel that is never closed: whoever waits there stays. */
  predicate Spent(s: State, c: nat) {
    c < |s.tests| == |s.chans| && s.tests[c].kind.Command? && s.chans[c].taken
  }

  /** A retrieval that may still remove the entry of its ID from resultC. */
  predicate MayRemove(s: State, r: Retriever) {
    r.pc.Received? || (r.pc.Waiting? && !Spent(s, r.pc.c))
  }

  /** Nobody will touch the map entries of this ID any more. */
  ghost predicate Quiet(s: State, id: string) {
    && (forall r :: 0 <= r < |s.retrievers| && s.retrievers[r].id == id ==> !MayRemove(s, s.retrievers[r]))
    && (forall i :: 0 <= i < |s.tests| && s.tests[i].id == id ==> !Unfinished(s.tests[i]))
  }

  /** Registrations accepted under this ID find it new or quiet. */
  ghost predicate SafeFor(s: State, a: Step, id: string) { Accepted(s, a) && a.id == id ==> Quiet(s, id) }

  /** Registrations accepted under this ID find it new. */
  ghost predicate FreshFor(s: State, a: Step, id: string) {
    Accepted(s, a) && a.id == id ==> forall i :: 0 <= i < |s.tests| ==> s.tests[i].id != id
  }

  predicate Next(s: State, a: Step, s': State) {
    Enabled(s, a) && s' == Apply(s, a)
  }

  /** A stretch of an interleaving, from any state. */
  ghost predicate Continues(states: seq<State>, steps: seq<Step>) {
    && |states| == |steps| + 1
    && forall k {:trigger steps[k]} :: 0 <= k < |steps| ==> Next(states[k], steps[k], states[k + 1])
  }

  ghost predicate AllSafe(states: seq<State>, steps: seq<Step>, id: string) {
    |states| == |steps| + 1 && forall k {:trigger steps[k]} :: 0 <= k < |steps| ==> SafeFor(states[k], steps[k], id)
  }

  ghost predicate IsRun(states: seq<State>, steps: seq<Step>) {
    Continues(states, steps) && Init(states[0])
  }

  /** Every interleaving in which this one ID is used again only once it is quiet;
      anything may happen under other IDs. */
  ghost predicate SafeRun(states: seq<State>, steps: seq<Step>, id: string) {
    IsRun(states, steps) && AllSafe(states, steps, id)
  }

  /** Every interleaving in which this one ID is never used again. */
  ghost predicate FreshRun(states: seq<State>, steps: seq<Step>, id: string) {
    IsRun(states, steps) && forall k {:trigger steps[k]} :: 0 <= k < |steps| ==> FreshFor(states[k], steps[k], id)
  }

  predicate HasSent(t: Test) {
    match t.pc
    case Working => false
    case Fetched(_) => false
    case Sent(_) => true
    case Closed => true
    case Releasing(_) => true
    case Done => true
    case EarlyReleasing(_) => false
    case EarlySend => false
  }

  predicate HasClosed(t: Test) { t.kind.Serve? && (t.pc.Closed? || t.pc.Releasing? || t.pc.Done?) }

  predicate Unfinished(t: Test) { t.pc.Working? || t.pc.Fetched? || t.pc.Sent? || t.pc.Closed? }

  function ChannelOf(r: Retriever): Option<nat> {
    match r.pc
    case Waiting(c) => Some(c)
    case Received(c, _) => Some(c)
    case Left(c, _) => c
  }

  predicate Succeeded(r: Retriever) {
    (r.pc.Received? || r.pc.Left?) && r.pc.outcome.Got?
  }

  /** Steps of a test's own goroutine. */
  predicate ByTest(a: Step) {
    || a.Fetch? || a.Send? || a.Close? || a.Release? || a.CancelSelf? || a.CommandSend? || a.EarlyRelease?
    || a.EarlyCancel?
  }

  lemma {:induction false} RunStep(states: seq<State>, steps: seq<Step>, k: nat)
    requires Continues(states, steps) && k < |steps|
    ensures Next(states[k], steps[k], states[k + 1])
  {}
}
