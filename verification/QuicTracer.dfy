/** Collecting QUIC packets: tracer callbacks put packets into a buffered channel
    that is never closed, a reader moves them into the result, and closing `quit`
    ends the collection. Any number of callbacks race with each other, with the
    reader and with quit. */
module QuicTracer {

  const CAPACITY: nat := 1000

  type Packet = nat

  /** A callback first tries a send that must not block (Arrived); if the buffer
      is full it waits for room or for quit (Waiting). */
  datatype CallbackPc = Arrived | Waiting | Accepted | Dropped
  datatype Callback = Callback(packet: Packet, pc: CallbackPc, sawFull: bool)

  datatype ReaderPc = Reading | Draining | Done

  /** `accepted` is the history of all sends that went through. */
  datatype State = State(
    buffer: seq<Packet>, quit: bool, callbacks: seq<Callback>, reader: ReaderPc, result: seq<Packet>,
    accepted: seq<Packet>)

  predicate Init(s: State) {
    s == State([], false, [], Reading, [], [])
  }

  datatype Step =
    | Emit(packet: Packet)   // quic-go calls the tracer
    | TrySend(c: nat)        // outer select: send if there is room, else go on waiting
    | WaitSend(c: nat)       // inner select takes the send branch
    | WaitQuit(c: nat)       // inner select takes the quit branch
    | CloseQuit
    | Read                   // reader receives from the channel
    | SeeQuit                // reader notices quit and starts draining
    | Expire                 // the 100 ms drain timer fires

  predicate HasPc(s: State, c: nat, pc: CallbackPc) { c < |s.callbacks| && s.callbacks[c].pc == pc }

  predicate Enabled(s: State, a: Step) {
    match a
    case Emit(_) => true
    case TrySend(c) => HasPc(s, c, Arrived)
    case WaitSend(c) => HasPc(s, c, Waiting) && |s.buffer| < CAPACITY
    case WaitQuit(c) => HasPc(s, c, Waiting) && s.quit
    case CloseQuit => !s.quit
    case Read => !s.reader.Done? && |s.buffer| > 0
    case SeeQuit => s.reader.Reading? && s.quit
    case Expire => s.reader.Draining?
  }

  function SetPc(s: State, c: nat, pc: CallbackPc, full: bool): State
    requires c < |s.callbacks|
  {
    s.(callbacks := s.callbacks[c := Callback(s.callbacks[c].packet, pc, s.callbacks[c].sawFull || full)])
  }

  function Put(s: State, c: nat): State
    requires c < |s.callbacks|
  {
    var p := s.callbacks[c].packet;
    SetPc(s, c, Accepted, false).(buffer := s.buffer + [p], accepted := s.accepted + [p])
  }

  function Apply(s: State, a: Step): State
    requires Enabled(s, a)
  {
    match a
    case Emit(p) => s.(callbacks := s.callbacks + [Callback(p, Arrived, false)])
    case TrySend(c) => if |s.buffer| < CAPACITY then Put(s, c) else SetPc(s, c, Waiting, true)
    case WaitSend(c) => Put(s, c)
    case WaitQuit(c) => SetPc(s, c, Dropped, false)
    case CloseQuit => s.(quit := true)
    case Read => s.(buffer := s.buffer[1..], result := s.result + [s.buffer[0]])
    case SeeQuit => s.(reader := Draining)
    case Expire => s.(reader := Done)
  }

  predicate Next(s: State, a: Step, s': State) { Enabled(s, a) && s' == Apply(s, a) }

  /** A stretch of an interleaving, from any state. */
  ghost predicate Continues(states: seq<State>, steps: seq<Step>) {
    && |states| == |steps| + 1
    && forall k {:trigger steps[k]} :: 0 <= k < |steps| ==> Next(states[k], steps[k], states[k + 1])
  }

  ghost predicate IsRun(states: seq<State>, steps: seq<Step>) {
    Continues(states, steps) && Init(states[0])
  }

  /** How many callbacks got packet p accepted. */
  function AcceptedCount(callbacks: seq<Callback>, p: Packet): nat {
    if |callbacks| == 0 then 0
    else AcceptedCount(callbacks[..|callbacks| - 1], p) + Share(callbacks[|callbacks| - 1], p)
  }

  function Share(cb: Callback, p: Packet): nat { if cb.pc.Accepted? && cb.packet == p then 1 else 0 }

  lemma {:induction false} AcceptedCountUpdate(callbacks: seq<Callback>, c: nat, cb: Callback, p: Packet)
    requires c < |callbacks|
    ensures AcceptedCount(callbacks[c := cb], p) == AcceptedCount(callbacks, p) - Share(callbacks[c], p) + Share(cb, p)
  {
    var n := |callbacks| - 1;
    var updated := callbacks[c := cb];
    if c < n {
      assert updated[..n] == callbacks[..n][c := cb];
      AcceptedCountUpdate(callbacks[..n], c, cb, p);
    } else {
      assert updated[..n] == callbacks[..n];
    }
  }

  ghost predicate CallbackOk(cb: Callback, quit: bool) {
    && (cb.pc in {Waiting, Dropped} ==> cb.sawFull)
    && (cb.pc.Dropped? ==> quit)
  }

  ghost predicate CallbacksOk(s: State) {
    forall c :: 0 <= c < |s.callbacks| ==> CallbackOk(s.callbacks[c], s.quit)
  }

  ghost predicate ChannelOk(s: State) {
    && s.result + s.buffer == s.accepted
    && |s.buffer| <= CAPACITY
    && (!s.reader.Reading? ==> s.quit)
  }

  /** Every accepted packet came from as many callbacks as it occurs. */
  ghost predicate CountsOk(s: State) {
    forall p :: multiset(s.accepted)[p] == AcceptedCount(s.callbacks, p)
  }

  ghost predicate Inv(s: State) {
    ChannelOk(s) && CallbacksOk(s) && CountsOk(s)
  }

  lemma {:induction false} PutKeepsInv(s: State, c: nat)
    requires Inv(s) && c < |s.callbacks| && s.callbacks[c].pc in {Arrived, Waiting} && |s.buffer| < CAPACITY
    ensures Inv(Put(s, c))
  {
    var s' := Put(s, c);
    assert s'.result + s'.buffer == s.result + s.buffer + [s.callbacks[c].packet];
    forall p ensures multiset(s'.accepted)[p] == AcceptedCount(s'.callbacks, p) {
      AcceptedCountUpdate(s.callbacks, c, s'.callbacks[c], p);
      assert multiset(s.accepted)[p] == AcceptedCount(s.callbacks, p);
    }
  }

  lemma {:induction false} SetPcKeepsInv(s: State, c: nat, pc: CallbackPc, full: bool)
    requires Inv(s) && c < |s.callbacks|
    requires || (s.callbacks[c].pc.Arrived? && pc == Waiting && full)
             || (s.callbacks[c].pc.Waiting? && pc == Dropped && s.quit)
    ensures Inv(SetPc(s, c, pc, full))
  {
    var s' := SetPc(s, c, pc, full);
    assert CallbackOk(s.callbacks[c], s.quit);
    forall p ensures multiset(s'.accepted)[p] == AcceptedCount(s'.callbacks, p) {
      AcceptedCountUpdate(s.callbacks, c, s'.callbacks[c], p);
      assert multiset(s.accepted)[p] == AcceptedCount(s.callbacks, p);
    }
  }

  lemma {:induction false} EmitKeepsInv(s: State, p: Packet)
    requires Inv(s)
    ensures Inv(Apply(s, Emit(p)))
  {
    var s' := Apply(s, Emit(p));
    assert s'.callbacks[..|s.callbacks|] == s.callbacks;
    forall q ensures multiset(s'.accepted)[q] == AcceptedCount(s'.callbacks, q) {
      assert multiset(s.accepted)[q] == AcceptedCount(s.callbacks, q);
    }
  }

  lemma {:induction false} ReaderKeepsInv(s: State, a: Step)
    requires Inv(s) && Enabled(s, a) && (a.CloseQuit? || a.Read? || a.SeeQuit? || a.Expire?)
    ensures Inv(Apply(s, a))
  {
    var s' := Apply(s, a);
    assert a.Read? ==> s'.result + s'.buffer == s.result + s.buffer;
    forall c | 0 <= c < |s.callbacks| ensures CallbackOk(s'.callbacks[c], s'.quit) {
      assert CallbackOk(s.callbacks[c], s.quit);
    }
  }

  lemma {:induction false} StepKeepsInv(s: State, a: Step)
    requires Inv(s) && Enabled(s, a)
    ensures Inv(Apply(s, a))
  {
    match a
    case Emit(p) => EmitKeepsInv(s, p);
    case TrySend(c) =>
      if |s.buffer| < CAPACITY {
        PutKeepsInv(s, c);
      } else {
        SetPcKeepsInv(s, c, Waiting, true);
      }
    case WaitSend(c) => PutKeepsInv(s, c);
    case WaitQuit(c) => SetPcKeepsInv(s, c, Dropped, false);
    case _ => ReaderKeepsInv(s, a);
  }

  lemma {:induction false} RunKeepsInv(states: seq<State>, steps: seq<Step>, k: nat)
    requires IsRun(states, steps) && k < |states|
    ensures Inv(states[k])
  {
    if k > 0 {
      RunKeepsInv(states, steps, k - 1);
      assert Next(states[k - 1], steps[k - 1], states[(k - 1) + 1]);
      StepKeepsInv(states[k - 1], steps[k - 1]);
    }
  }

  /** In every interleaving the result followed by the channel buffer is the
      sequence of accepted sends: nothing is lost, duplicated or reordered, and
      every accepted callback contributed its packet exactly once. */
  lemma {:induction false} NothingLostBehindTheChannel(states: seq<State>, steps: seq<Step>, k: nat)
    requires IsRun(states, steps) && k < |states|
    ensures states[k].result + states[k].buffer == states[k].accepted
    ensures forall p :: multiset(states[k].accepted)[p] == AcceptedCount(states[k].callbacks, p)
  {
    RunKeepsInv(states, steps, k);
  }

  /** The packets handed to the tracer, in order. */
  function Emitted(steps: seq<Step>): seq<Packet> {
    if |steps| == 0 then []
    else
      var n := |steps| - 1;
      Emitted(steps[..n]) + if steps[n].Emit? then [steps[n].packet] else []
  }

  function PacketsOf(callbacks: seq<Callback>): (ps: seq<Packet>)
    ensures |ps| == |callbacks|
  {
    seq(|callbacks|, c requires 0 <= c < |callbacks| => callbacks[c].packet)
  }

  lemma {:induction false} StepKeepsPackets(s: State, a: Step, s': State)
    requires Next(s, a, s')
    ensures PacketsOf(s'.callbacks) == PacketsOf(s.callbacks) + if a.Emit? then [a.packet] else []
  {
    if !a.Emit? {
      assert PacketsOf(s'.callbacks) == PacketsOf(s.callbacks);
    }
  }

  /** There is one callback for each packet emitted, in order. */
  lemma {:induction false} CallbacksAreEmitted(states: seq<State>, steps: seq<Step>, k: nat)
    requires IsRun(states, steps) && k < |states|
    ensures PacketsOf(states[k].callbacks) == Emitted(steps[..k])
  {
    if k > 0 {
      CallbacksAreEmitted(states, steps, k - 1);
      assert Next(states[k - 1], steps[k - 1], states[(k - 1) + 1]);
      StepKeepsPackets(states[k - 1], steps[k - 1], states[k]);
      assert steps[..k][..k - 1] == steps[..k - 1];
    }
  }

  /** How many callbacks with packet p have not got it accepted. */
  function OpenCount(callbacks: seq<Callback>, p: Packet): nat {
    if |callbacks| == 0 then 0
    else
      var n := |callbacks| - 1;
      OpenCount(callbacks[..n], p) + if callbacks[n].packet == p && !callbacks[n].pc.Accepted? then 1 else 0
  }

  lemma {:induction false} PacketsCount(callbacks: seq<Callback>, p: Packet)
    ensures multiset(PacketsOf(callbacks))[p] == AcceptedCount(callbacks, p) + OpenCount(callbacks, p)
  {
    if |callbacks| > 0 {
      var n := |callbacks| - 1;
      PacketsCount(callbacks[..n], p);
      assert PacketsOf(callbacks) == PacketsOf(callbacks[..n]) + [callbacks[n].packet];
    }
  }

  /** Conservation in every interleaving: each packet emitted is in the result, in
      the channel, or with a callback that has not got it accepted. */
  lemma {:induction false} EveryPacketAccounted(states: seq<State>, steps: seq<Step>, k: nat, p: Packet)
    requires IsRun(states, steps) && k < |states|
    ensures var s := states[k];
            multiset(Emitted(steps[..k]))[p] == multiset(s.result + s.buffer)[p] + OpenCount(s.callbacks, p)
  {
    CallbacksAreEmitted(states, steps, k);
    RunKeepsInv(states, steps, k);
    PacketsCount(states[k].callbacks, p);
  }

  /** A packet is dropped only if the buffer was full when its callback arrived
      and quit was closed by the time it gave up. */
  lemma {:induction false} DroppedOnlyWhenFullAndQuit(states: seq<State>, steps: seq<Step>, k: nat, c: nat)
    requires IsRun(states, steps) && k < |states| && HasPc(states[k], c, Dropped)
    ensures states[k].quit
    ensures exists j :: 0 <= j < k && steps[j] == TrySend(c) && |states[j].buffer| == CAPACITY
  {
    RunKeepsInv(states, steps, k);
    assert CallbackOk(states[k].callbacks[c], states[k].quit);
    SawFullMeansFull(states, steps, k, c);
  }

  lemma {:induction false} SawFullMeansFull(states: seq<State>, steps: seq<Step>, k: nat, c: nat)
    requires IsRun(states, steps) && k < |states| && c < |states[k].callbacks| && states[k].callbacks[c].sawFull
    ensures exists j :: 0 <= j < k && steps[j] == TrySend(c) && |states[j].buffer| == CAPACITY
  {
    var s := states[k - 1];
    assert Next(s, steps[k - 1], states[(k - 1) + 1]);
    if c < |s.callbacks| && s.callbacks[c].sawFull {
      SawFullMeansFull(states, steps, k - 1, c);
      var j :| 0 <= j < k - 1 && steps[j] == TrySend(c) && |states[j].buffer| == CAPACITY;
      assert steps[j] == TrySend(c);
    } else {
      RunKeepsInv(states, steps, k - 1);
      assert steps[k - 1] == TrySend(c);
    }
  }

  /** No callback is ever blocked for good: it can act, or the reader can make
      room for it. */
  lemma {:induction false} CallbackNeverStuck(states: seq<State>, steps: seq<Step>, k: nat, c: nat)
    requires IsRun(states, steps) && k < |states| && c < |states[k].callbacks|
    requires states[k].callbacks[c].pc in {Arrived, Waiting}
    ensures Enabled(states[k], TrySend(c)) || Enabled(states[k], WaitSend(c)) || Enabled(states[k], WaitQuit(c)) ||
            Enabled(states[k], Read)
  {
    RunKeepsInv(states, steps, k);
  }

  /** Once quit is closed the reader can always go on to its end, and what it has
      collected by then is final. */
  lemma {:induction false} ReaderEnds(states: seq<State>, steps: seq<Step>, k: nat, l: nat)
    requires Continues(states, steps) && k <= l < |states| && states[k].quit
    ensures states[k].reader.Done? || Enabled(states[k], SeeQuit) || Enabled(states[k], Expire)
    ensures states[k].reader.Done? ==> states[l].reader.Done? && states[l].result == states[k].result
  {
    if k < l {
      ReaderEnds(states, steps, k, l - 1);
      assert Next(states[l - 1], steps[l - 1], states[(l - 1) + 1]);
    }
  }

  // ----- When a drop means that quit met a full buffer -----

  ghost predicate QuitNeverMetFull(states: seq<State>) {
    forall k :: 0 <= k < |states| ==> !(states[k].quit && |states[k].buffer| == CAPACITY)
  }

  /** However things go on from here, dropping callback c takes a moment at which
      quit is closed and the buffer is full. */
  ghost predicate DropTakesFullQuit(s: State, c: nat) {
    forall states, steps :: Continues(states, steps) && states[0] == s && HasPc(states[|steps|], c, Dropped) ==>
      !QuitNeverMetFull(states)
  }

  lemma {:induction false} Extend(states: seq<State>, steps: seq<Step>, a: Step)
    returns (states': seq<State>, steps': seq<Step>)
    requires Continues(states, steps) && Enabled(states[|steps|], a)
    ensures Continues(states', steps') && steps' == steps + [a] && states' == states + [Apply(states[|steps|], a)]
  {
    states', steps' := states + [Apply(states[|steps|], a)], steps + [a];
  }

  /** Other callbacks fill the buffer while c is still to make its first attempt. */
  lemma {:induction false} FillUp(states: seq<State>, steps: seq<Step>, c: nat)
    returns (states': seq<State>, steps': seq<Step>)
    requires Continues(states, steps) && QuitNeverMetFull(states)
    requires var s := states[|steps|]; !s.quit && |s.buffer| <= CAPACITY && HasPc(s, c, Arrived)
    ensures Continues(states', steps') && QuitNeverMetFull(states') && states'[0] == states[0]
    ensures var s := states'[|steps'|];
            !s.quit && |s.buffer| == CAPACITY && HasPc(s, c, Arrived) && s.reader == states[|steps|].reader
    decreases CAPACITY - |states[|steps|].buffer|
  {
    states', steps' := states, steps;
    var s := states[|steps|];
    if |s.buffer| < CAPACITY {
      states', steps' := Extend(states', steps', Emit(0));
      states', steps' := Extend(states', steps', TrySend(|s.callbacks|));
      states', steps' := FillUp(states', steps', c);
    }
  }

  /** While quit is open, a callback can still be dropped without quit ever meeting
      a full buffer: it finds the buffer full, the reader makes room, quit is
      closed, and the inner select takes the quit branch although its send would go
      through as well. */
  lemma {:induction false} DropUnmet(states: seq<State>, steps: seq<Step>, c: nat)
    returns (states': seq<State>, steps': seq<Step>)
    requires Continues(states, steps) && QuitNeverMetFull(states)
    requires var s := states[|steps|]; !s.quit && |s.buffer| <= CAPACITY && s.reader.Reading? && HasPc(s, c, Arrived)
    ensures Continues(states', steps') && QuitNeverMetFull(states') && states'[0] == states[0]
    ensures |steps'| > 0 && Enabled(states'[|steps'| - 1], WaitSend(c)) && HasPc(states'[|steps'|], c, Dropped)
  {
    states', steps' := FillUp(states, steps, c);
    states', steps' := Extend(states', steps', TrySend(c));
    states', steps' := Extend(states', steps', Read);
    states', steps' := Extend(states', steps', CloseQuit);
    states', steps' := Extend(states', steps', WaitQuit(c));
  }

  lemma {:induction false} QuitStays(states: seq<State>, steps: seq<Step>, k: nat)
    requires Continues(states, steps) && k < |states| && states[0].quit
    ensures states[k].quit
  {
    if k > 0 {
      QuitStays(states, steps, k - 1);
      assert Next(states[k - 1], steps[k - 1], states[(k - 1) + 1]);
    }
  }

  lemma {:induction false} FirstAttemptMetFull(states: seq<State>, steps: seq<Step>, k: nat, c: nat) returns (j: nat)
    requires Continues(states, steps) && k < |states| && HasPc(states[0], c, Arrived)
    requires HasPc(states[k], c, Waiting) || HasPc(states[k], c, Dropped)
    ensures j < k && |states[j].buffer| >= CAPACITY
  {
    var s := states[k - 1];
    assert Next(s, steps[k - 1], states[(k - 1) + 1]);
    CallbackStays(states, steps, k - 1, c);
    if HasPc(s, c, Waiting) || HasPc(s, c, Dropped) {
      j := FirstAttemptMetFull(states, steps, k - 1, c);
    } else {
      j := k - 1;
      assert steps[k - 1] == TrySend(c);
    }
  }

  lemma {:induction false} CallbackStays(states: seq<State>, steps: seq<Step>, k: nat, c: nat)
    requires Continues(states, steps) && k < |states| && c < |states[0].callbacks|
    ensures c < |states[k].callbacks|
  {
    if k > 0 {
      CallbackStays(states, steps, k - 1, c);
      assert Next(states[k - 1], steps[k - 1], states[(k - 1) + 1]);
    }
  }

  lemma {:induction false} BufferBounded(states: seq<State>, steps: seq<Step>, k: nat)
    requires Continues(states, steps) && k < |states| && Inv(states[0])
    ensures Inv(states[k])
  {
    if k > 0 {
      BufferBounded(states, steps, k - 1);
      assert Next(states[k - 1], steps[k - 1], states[(k - 1) + 1]);
      StepKeepsInv(states[k - 1], steps[k - 1]);
    }
  }

  lemma {:induction false} LateDropMeetsFullQuit(s: State, c: nat)
    requires Inv(s) && s.quit && HasPc(s, c, Arrived)
    ensures DropTakesFullQuit(s, c)
  {
    forall states, steps | Continues(states, steps) && states[0] == s && HasPc(states[|steps|], c, Dropped)
      ensures !QuitNeverMetFull(states)
    {
      var j := FirstAttemptMetFull(states, steps, |steps|, c);
      QuitStays(states, steps, j);
      BufferBounded(states, steps, j);
    }
  }

  /** Exactly when "dropped only if quit was closed while the buffer was full" holds
      of a callback is decided at its arrival: it does if and only if quit was
      closed already then, whatever the buffer held. */
  lemma {:induction false} DropTakesFullQuitExactly(states: seq<State>, steps: seq<Step>, k: nat, c: nat)
    requires IsRun(states, steps) && k < |states| && HasPc(states[k], c, Arrived)
    ensures DropTakesFullQuit(states[k], c) <==> states[k].quit
  {
    RunKeepsInv(states, steps, k);
    var s := states[k];
    if s.quit {
      LateDropMeetsFullQuit(s, c);
    } else {
      var states', steps' := DropUnmet([s], [], c);
      assert HasPc(states'[|steps'|], c, Dropped);
    }
  }

  /** A run from the start: a packet is dropped although quit was never closed while
      the buffer was full, and although its send was possible at that moment. */
  lemma {:induction false} DropWithRoomInTheBuffer() returns (states: seq<State>, steps: seq<Step>)
    ensures IsRun(states, steps) && QuitNeverMetFull(states)
    ensures |steps| > 0 && Enabled(states[|steps| - 1], WaitSend(0)) && HasPc(states[|steps|], 0, Dropped)
  {
    states, steps := [State([], false, [], Reading, [], [])], [];
    states, steps := Extend(states, steps, Emit(0));
    states, steps := DropUnmet(states, steps, 0);
  }
}
