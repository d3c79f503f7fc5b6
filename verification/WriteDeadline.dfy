/** The write deadline of the connection across consecutive segments. Each
    segment sets the deadline, registers a wake-up callback on its context, runs,
    then stops or joins the callback and clears the deadline. The callback is a
    concurrent process: once its context ends it may start at any moment and take
    its steps at any moment. Segments are numbered in the order they are entered. */
module WriteDeadline {

  /** Who wrote the deadline last. */
  datatype Deadline = Cleared | Nominal(segment: nat) | Woken(segment: nat)

  /** A registered callback: not started, stopped before it started, started
      (its goroutine exists), past its write, or finished (`woke` closed). */
  datatype Callback = Pending | Stopped | Started | Wrote | Finished

  /** Program counter of the sender goroutine. Stop has run in Joining and
      found the callback already started. */
  datatype Pc = Between | Armed | Running | Joining | Clearing

  /** callbacks[k] belongs to segment k; the current segment, if any, is the
      last one whose deadline was set. */
  datatype State = State(pc: Pc, deadline: Deadline, segment: nat, callbacks: map<nat, Callback>)

  predicate Init(s: State) {
    s == State(Between, Cleared, 0, map[])
  }

  datatype Step =
    | SetDeadline      // enter the next segment and set its nominal deadline
    | SetFails         // SetWriteDeadline returned an error: leave at once
    | Register         // context.AfterFunc
    | StopInTime       // stopWake returned true
    | StopTooLate      // stopWake returned false: must wait for the callback
    | Join             // <-woke
    | Clear            // clear the deadline and leave the segment
    | Start(k: nat)    // the context of segment k ended: its callback starts
    | Write(k: nat)    // the callback sets the deadline to now
    | Close(k: nat)    // the callback closes woke

  predicate Enabled(s: State, a: Step) {
    match a
    case SetDeadline => s.pc.Between?
    case SetFails => s.pc.Between?
    case Register => s.pc.Armed?
    case StopInTime => s.pc.Running? && s.segment in s.callbacks && s.callbacks[s.segment].Pending?
    case StopTooLate => s.pc.Running? && s.segment in s.callbacks && !s.callbacks[s.segment].Pending?
    case Join => s.pc.Joining? && s.segment in s.callbacks && s.callbacks[s.segment].Finished?
    case Clear => s.pc.Clearing?
    case Start(k) => k in s.callbacks && s.callbacks[k].Pending?
    case Write(k) => k in s.callbacks && s.callbacks[k].Started?
    case Close(k) => k in s.callbacks && s.callbacks[k].Wrote?
  }

  function Apply(s: State, a: Step): State
    requires Enabled(s, a)
  {
    match a
    case SetDeadline => s.(pc := Armed, deadline := Nominal(s.segment))
    case SetFails => s
    case Register => s.(pc := Running, callbacks := s.callbacks[s.segment := Pending])
    case StopInTime => s.(pc := Clearing, callbacks := s.callbacks[s.segment := Stopped])
    case StopTooLate => s.(pc := Joining)
    case Join => s.(pc := Clearing)
    case Clear => s.(pc := Between, deadline := Cleared, segment := s.segment + 1)
    case Start(k) => s.(callbacks := s.callbacks[k := Started])
    case Write(k) => s.(deadline := Woken(k), callbacks := s.callbacks[k := Wrote])
    case Close(k) => s.(callbacks := s.callbacks[k := Finished])
  }

  /** The states reached by an interleaving, in order. */
  ghost predicate IsRun(states: seq<State>, steps: seq<Step>) {
    && |states| == |steps| + 1
    && Init(states[0])
    && forall i {:trigger steps[i]} :: 0 <= i < |steps| ==>
         Enabled(states[i], steps[i]) && states[i + 1] == Apply(states[i], steps[i])
  }

  predicate Settled(c: Callback) { c.Stopped? || c.Finished? }

  /** Callbacks of left segments are settled for good, and the deadline was
      written by nobody but the current segment. */
  ghost predicate Inv(s: State) {
    && (forall k :: k in s.callbacks ==> k <= s.segment)
    && (forall k :: k in s.callbacks && k < s.segment ==> Settled(s.callbacks[k]))
    && (s.segment in s.callbacks <==> s.pc in {Running, Joining, Clearing})
    && (s.pc == Joining ==> s.callbacks[s.segment] in {Started, Wrote, Finished})
    && (s.pc == Running ==> !s.callbacks[s.segment].Stopped?)
    && (s.pc == Clearing ==> Settled(s.callbacks[s.segment]))
    && s.deadline == Due(s)
  }

  /** What the deadline should be: none between segments; inside one the end of the
      segment until its context ended and the callback woke the sender. */
  function Due(s: State): Deadline {
    if s.pc.Between? then Cleared
    else if s.segment in s.callbacks && s.callbacks[s.segment] in {Wrote, Finished} then Woken(s.segment)
    else Nominal(s.segment)
  }

  lemma {:induction false} StepKeepsInv(s: State, a: Step)
    requires Inv(s) && Enabled(s, a)
    ensures Inv(Apply(s, a))
  {}

  lemma {:induction false} RunKeepsInv(states: seq<State>, steps: seq<Step>, i: nat)
    requires IsRun(states, steps) && i < |states|
    ensures Inv(states[i])
  {
    if i > 0 {
      RunKeepsInv(states, steps, i - 1);
      StepKeepsInv(states[i - 1], steps[i - 1]);
      assert states[(i - 1) + 1] == Apply(states[i - 1], steps[i - 1]);
    }
  }

  /** In every interleaving: between segments the deadline is cleared and every
      callback ever registered was stopped before it ran or has fully finished;
      inside a segment only that segment has written the deadline, and its callback
      has woken the sender as soon as it is past its write. */
  lemma {:induction false} NoStaleDeadline(states: seq<State>, steps: seq<Step>, i: nat)
    requires IsRun(states, steps) && i < |states|
    ensures states[i].pc.Between? ==>
      forall k :: k in states[i].callbacks ==> Settled(states[i].callbacks[k])
    ensures states[i].deadline == Due(states[i])
  {
    RunKeepsInv(states, steps, i);
  }

  /** From a point between segments on, no callback registered earlier ever
      writes the deadline again, however the run continues. */
  lemma {:induction false} NoLateWrite(states: seq<State>, steps: seq<Step>, i: nat, j: nat)
    requires IsRun(states, steps) && i <= j < |steps|
    requires states[i].pc.Between? && steps[j].Write?
    ensures steps[j].k !in states[i].callbacks
  {
    RunKeepsInv(states, steps, i);
    if steps[j].k in states[i].callbacks {
      StaysSettled(states, steps, i, j, steps[j].k);
      assert false;
    }
  }

  lemma {:induction false} StaysSettled(states: seq<State>, steps: seq<Step>, i: nat, j: nat, k: nat)
    requires IsRun(states, steps) && i <= j < |states|
    requires k in states[i].callbacks && k < states[i].segment && Settled(states[i].callbacks[k])
    ensures k in states[j].callbacks && k < states[j].segment && Settled(states[j].callbacks[k])
  {
    if i < j {
      StaysSettled(states, steps, i, j - 1, k);
      assert states[(j - 1) + 1] == Apply(states[j - 1], steps[j - 1]);
    }
  }

  /** The join never deadlocks: while the sender waits, either the wait is over
      or the callback it waits for can take a step. */
  lemma {:induction false} JoinCannotBlock(states: seq<State>, steps: seq<Step>, i: nat)
    requires IsRun(states, steps) && i < |states| && states[i].pc.Joining?
    ensures Enabled(states[i], Join) || Enabled(states[i], Write(states[i].segment)) ||
            Enabled(states[i], Close(states[i].segment))
  {
    RunKeepsInv(states, steps, i);
  }

  // ----- Why the join is needed -----

  /** The same protocol, but a failed stop clears the deadline without waiting. */
  function ApplyNoJoin(s: State, a: Step): State
    requires Enabled(s, a)
  {
    if a.StopTooLate? then s.(pc := Clearing) else Apply(s, a)
  }

  /** Without the join, a callback of segment 0 overwrites the deadline of
      segment 1. */
  lemma {:induction false} WithoutJoinStaleDeadline() returns (states: seq<State>, steps: seq<Step>)
    ensures |states| == |steps| + 1 && Init(states[0])
    ensures forall i :: 0 <= i < |steps| ==>
              Enabled(states[i], steps[i]) && states[i + 1] == ApplyNoJoin(states[i], steps[i])
    ensures states[|steps|].segment == 1 && !states[|steps|].pc.Between? && states[|steps|].deadline == Woken(0)
  {
    steps := [SetDeadline, Register, Start(0), StopTooLate, Clear, SetDeadline, Write(0)];
    var s0 := State(Between, Cleared, 0, map[]);
    var s1 := ApplyNoJoin(s0, steps[0]);
    var s2 := ApplyNoJoin(s1, steps[1]);
    var s3 := ApplyNoJoin(s2, steps[2]);
    var s4 := ApplyNoJoin(s3, steps[3]);
    var s5 := ApplyNoJoin(s4, steps[4]);
    var s6 := ApplyNoJoin(s5, steps[5]);
    var s7 := ApplyNoJoin(s6, steps[6]);
    states := [s0, s1, s2, s3, s4, s5, s6, s7];
  }
}
