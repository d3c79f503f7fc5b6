/** The paced sender: segments with fixed nominal boundaries, cumulative goals,
    batches of at most 1024 datagrams, and a message log that is rolled back to
    what the socket accepted. The clock, the context and the socket are
    adversaries: nothing is known about them beyond the contracts of Host. */
module RateSending {
  import opened Basics
  import opened Wire
  import opened Pacing

  const BATCH: nat := 1024
  const BUFFER_CAPACITY: nat := 1500

  datatype RateParams = RateParams(pps: nat, duration: int, payloadSize: nat)

  /** One reusable transmit buffer: its capacity and the slice last encoded. */
  datatype Buffer = Buffer(capacity: nat, data: Datagram)

  datatype SendResult = Accepted(n: nat) | TimedOut | Failed
  datatype Error = EncodeError | SocketError | DeadlineError

  /** One SendMsgs call: the timestamp recorded for its packets, the last clock
      reading before it, the batch size, the accepted count and the length of
      each datagram. */
  datatype SendCall = SendCall(tsSent: int, at: int, size: nat, accepted: nat, len: nat)

  /** The clock never runs backwards; the context may end at any moment, and a
      wait for the next tick may end with the context instead; the socket accepts
      any prefix of a batch, or reports an error and accepts nothing. */
  class Host {
    var clock: int
    var done: bool  // the context has ended
    var ticksLeft: nat  // ticks that come before the segment's context ends, unknown to the sender
    ghost var expiries: nat  // how often an expiry check came out true
    ghost var dones: nat  // how often a wait ended with the context
    ghost var failures: nat  // how often a write failed other than by timeout
    ghost var refusals: nat  // how often a write deadline could not be set

    method Now() returns (t: int)
      modifies this`clock
      ensures old(clock) <= t == clock
    {
      t := *;
      if t < clock {
        t := clock;
      }
      clock := t;
    }

    /** rateContextExpired: the context has ended, or its deadline is reached. */
    method ContextExpired(now: int, deadline: Option<int>) returns (expired: bool)
      modifies this`done, this`expiries
      ensures expired <==> done || (deadline.Some? && deadline.value <= now)
      ensures old(done) ==> done
      ensures expiries == old(expiries) + if expired then 1 else 0
    {
      var ended: bool := *;
      done := done || ended;
      expired := done || (deadline.Some? && !(now < deadline.value));
      expiries := expiries + if expired then 1 else 0;
    }

    /** Waits for the next tick or for the end of the segment's context. */
    method NextTick() returns (tick: bool)
      modifies this`ticksLeft, this`dones
      ensures tick <==> old(ticksLeft) > 0
      ensures tick ==> ticksLeft == old(ticksLeft) - 1
      ensures dones == old(dones) + if tick then 0 else 1
    {
      tick := ticksLeft > 0;
      if tick {
        ticksLeft := ticksLeft - 1;
      } else {
        AwaitDone();
      }
    }

    /** Waits for the end of the segment's context. */
    method AwaitDone()
      modifies this`dones, this`ticksLeft
      ensures dones == old(dones) + 1
    {
      dones := dones + 1;
      var next: int := *;
      ticksLeft := Max(0, next);
    }

    method SetWriteDeadline() returns (ok: bool)
      modifies this`refusals
      ensures refusals == old(refusals) + if ok then 0 else 1
    {
      ok := *;
      refusals := refusals + if ok then 0 else 1;
    }

    method SendMsgs(batch: seq<Buffer>) returns (r: SendResult)
      modifies this`failures
      ensures r.Accepted? ==> r.n <= |batch|
      ensures failures == old(failures) + if r.Failed? then 1 else 0
    {
      var n: int := *;
      r := if 0 <= n <= |batch| then Accepted(n) else if n < 0 then TimedOut else Failed;
      failures := failures + if r.Failed? then 1 else 0;
    }
  }

  /** Time has passed, and the error says what went wrong on the way: exactly one
      failed write, exactly one refused deadline, or neither. */
  ghost predicate MovedOn(host: Host, clock0: int, expiries0: nat, failures0: nat, refusals0: nat, err: Option<Error>)
    reads host
  {
    && clock0 <= host.clock && expiries0 <= host.expiries
    && host.failures == failures0 + (if err == Some(SocketError) then 1 else 0)
    && host.refusals == refusals0 + (if err == Some(DeadlineError) then 1 else 0)
  }

  function AcceptedTotal(calls: seq<SendCall>): nat {
    if |calls| == 0 then 0 else AcceptedTotal(calls[..|calls| - 1]) + calls[|calls| - 1].accepted
  }

  ghost predicate Full(calls: seq<SendCall>, from: nat) {
    forall i :: from <= i < |calls| ==> calls[i].accepted == calls[i].size
  }

  /** What the calls of one segment have in common: the time they must beat, the
      length of their datagrams and the number that can be encoded at once. */
  datatype Terms = Terms(deadline: int, len: nat, room: nat)

  /** The send time was read after `since` and before the call, the call was made
      before the deadline, and it hands over datagrams of the agreed length. */
  predicate MadeCall(c: SendCall, since: int, until: int, t: Terms) {
    && since <= c.tsSent <= c.at <= until && c.at < t.deadline
    && 0 < c.size <= BATCH && c.size <= t.room && c.accepted <= c.size && c.len == t.len
  }

  /** Every call from index `from` on was made on these terms between `since` and
      `until`, each stamped no earlier than the previous one was made. */
  ghost predicate Made(calls: seq<SendCall>, from: nat, since: int, until: int, t: Terms) {
    && from <= |calls|
    && (forall i :: from <= i < |calls| ==> MadeCall(calls[i], since, until, t))
    && (forall i :: from < i < |calls| ==> calls[i - 1].at <= calls[i].tsSent)
  }

  lemma {:induction false} CallsGrow(old0: seq<SendCall>, before: seq<SendCall>, after: seq<SendCall>,
                                     since: int, mid: int, mid': int, until: int, t: Terms)
    requires old0 <= before <= after && since <= mid <= mid' <= until
    requires Made(before, |old0|, since, mid, t) && Made(after, |before|, mid', until, t)
    ensures old0 <= after && Made(after, |old0|, since, until, t)
    ensures Full(after, |old0|) ==> Full(before, |old0|) && Full(after, |before|)
  {
    forall i | 0 <= i < |before| ensures before[i] == after[i] {
      assert before == after[..|before|];
    }
    forall i | |old0| <= i < |after| ensures MadeCall(after[i], since, until, t) {
      assert if i < |before| then MadeCall(before[i], since, mid, t) else MadeCall(after[i], mid', until, t);
    }
    forall i | |old0| < i < |after| ensures after[i - 1].at <= after[i].tsSent {
      if i == |before| {
        assert MadeCall(before[i - 1], since, mid, t) && MadeCall(after[i], mid', until, t);
      }
    }
  }

  /** Ticks read between entry and now, never served beyond what is due at each, and
      in full if they are complete. */
  ghost predicate TicksSoFar(ticks: seq<Tick>, sent: nat, goalAt: int -> nat, entry: int, clock: int, complete: bool) {
    && NeverAhead(ticks) && InOrder(entry, ticks) && AllBefore(ticks, clock) && GoalsFromReadings(ticks, goalAt)
    && sent == Total(ticks) && (complete ==> AllWritesComplete(ticks))
  }

  lemma {:induction false} NoCalls(calls: seq<SendCall>, since: int, until: int, t: Terms)
    ensures Made(calls, |calls|, since, until, t)
  {}

  lemma {:induction false} OneCall(calls: seq<SendCall>, c: SendCall, since: int, until: int, t: Terms)
    requires MadeCall(c, since, until, t)
    ensures calls <= calls + [c] && Made(calls + [c], |calls|, since, until, t)
  {}

  lemma {:induction false} PrefixTrans<T>(a: seq<T>, b: seq<T>, c: seq<T>)
    requires a <= b <= c
    ensures a <= c
  {}

  // ----- What the message log says about the wire -----

  predicate Describes(m: MsgSent, d: Datagram, k: nat) {
    && m.seqNo == k % UINT64
    && |d| == m.len >= HEADER
    && DecodeSeq(d) == m.seqNo
  }

  /** The log and the wire agree entry by entry: entry i has sequence number
      first + i and the length of the datagram that left. */
  ghost predicate Mirrors(msgs: seq<MsgSent>, wire: seq<Datagram>, first: nat) {
    && |msgs| == |wire|
    && forall i :: 0 <= i < |msgs| ==> Describes(msgs[i], wire[i], first + i)
  }

  ghost predicate TimesInOrder(msgs: seq<MsgSent>, latest: int) {
    && (forall i :: 0 <= i < |msgs| ==> msgs[i].tsSent <= latest)
    && (forall i, j :: 0 <= i < j < |msgs| ==> msgs[i].tsSent <= msgs[j].tsSent)
  }

  /** The records a batch appends. */
  function Records(seqNo: nat, tsSent: int, len: nat, n: nat): (r: seq<MsgSent>)
    ensures |r| == n
  {
    seq(n, i requires 0 <= i < n => MsgSent((seqNo + i) % UINT64, tsSent, len))
  }

  function Contents(batch: seq<Buffer>): (d: seq<Datagram>)
    ensures |d| == |batch|
  {
    seq(|batch|, i requires 0 <= i < |batch| => batch[i].data)
  }

  /** The first n buffers hold datagrams seqNo, seqNo + 1, ... */
  ghost predicate Filled(tx: seq<Buffer>, seqNo: nat, len: nat, n: nat) {
    && n <= |tx|
    && len >= HEADER
    && forall i :: 0 <= i < n ==> |tx[i].data| == len && DecodeSeq(tx[i].data) == (seqNo + i) % UINT64
  }

  ghost predicate SameCapacities(tx: seq<Buffer>, tx': seq<Buffer>) {
    && |tx| == |tx'|
    && forall i :: 0 <= i < |tx| ==> tx[i].capacity == tx'[i].capacity
  }

  /** Index of the first buffer that cannot hold the payload. */
  function FirstTooSmall(tx: seq<Buffer>, payloadSize: nat): (k: nat)
    ensures k <= |tx|
  {
    if |tx| == 0 || !BufferHolds(tx[0].capacity, payloadSize) then 0 else 1 + FirstTooSmall(tx[1..], payloadSize)
  }

  /** Accepting the first n of a filled batch keeps log and wire in agreement. */
  lemma {:induction false} MirrorsExtend(msgs: seq<MsgSent>, wire: seq<Datagram>, first: nat, tx: seq<Buffer>,
                      seqNo: nat, tsSent: int, len: nat, n: nat)
    requires Mirrors(msgs, wire, first)
    requires seqNo == (first + |wire|) % UINT64
    requires Filled(tx, seqNo, len, n)
    ensures Mirrors(msgs + Records(seqNo, tsSent, len, n), wire + Contents(tx[..n]), first)
    ensures (seqNo + n) % UINT64 == (first + |wire| + n) % UINT64
  {
    var msgs', wire' := msgs + Records(seqNo, tsSent, len, n), wire + Contents(tx[..n]);
    forall i | 0 <= i < |msgs'| ensures Describes(msgs'[i], wire'[i], first + i) {
      if i < |msgs| {
        assert Describes(msgs[i], wire[i], first + i);
      } else {
        var j := i - |msgs|;
        WrapAdd(first + |wire|, j);
        assert wire'[i] == tx[j].data;
        assert msgs'[i] == MsgSent((seqNo + j) % UINT64, tsSent, len);
      }
    }
    WrapAdd(first + |wire|, n);
  }

  lemma {:induction false} WrapAdd(a: nat, b: nat)
    ensures (a % UINT64 + b) % UINT64 == (a + b) % UINT64
  {}

  /** The first i datagrams of a batch are encoded and logged. */
  ghost predicate BatchSoFar(msgs0: seq<MsgSent>, tx0: seq<Buffer>, msgs: seq<MsgSent>, tx: seq<Buffer>,
                          seqNo: nat, tsSent: int, len: nat, i: nat) {
    && SameCapacities(tx0, tx) && Filled(tx, seqNo, len, i)
    && msgs == msgs0 + Records(seqNo, tsSent, len, i)
  }

  lemma {:induction false} FillOne(msgs0: seq<MsgSent>, tx0: seq<Buffer>, msgs: seq<MsgSent>, tx: seq<Buffer>,
                                   seqNo: nat, tsSent: int, len: nat, i: nat, d: Datagram)
    requires i < |tx| && BatchSoFar(msgs0, tx0, msgs, tx, seqNo, tsSent, len, i)
    requires |d| == len && DecodeSeq(d) == (seqNo + i) % UINT64
    ensures BatchSoFar(msgs0, tx0, msgs + [MsgSent((seqNo + i) % UINT64, tsSent, len)], tx[i := tx[i].(data := d)],
                    seqNo, tsSent, len, i + 1)
  {
    RecordsStep(seqNo, tsSent, len, i);
  }

  /** Everything before it holds the payload, the buffer itself does not. */
  lemma {:induction false} FirstTooSmallMeaning(tx: seq<Buffer>, payloadSize: nat, i: nat)
    requires i < |tx|
    ensures i < FirstTooSmall(tx, payloadSize) ==> BufferHolds(tx[i].capacity, payloadSize)
    ensures i == FirstTooSmall(tx, payloadSize) ==> !BufferHolds(tx[i].capacity, payloadSize)
  {
    if i > 0 && BufferHolds(tx[0].capacity, payloadSize) {
      FirstTooSmallMeaning(tx[1..], payloadSize, i - 1);
    }
  }

  lemma {:induction false} FirstTooSmallSame(tx: seq<Buffer>, tx': seq<Buffer>, payloadSize: nat)
    requires SameCapacities(tx, tx')
    ensures FirstTooSmall(tx, payloadSize) == FirstTooSmall(tx', payloadSize)
  {
    if |tx| > 0 {
      FirstTooSmallSame(tx[1..], tx'[1..], payloadSize);
    }
  }

  ghost predicate EqualCapacities(tx: seq<Buffer>) {
    forall i, j :: 0 <= i < j < |tx| ==> tx[i].capacity == tx[j].capacity
  }

  /** Among buffers of one size, the first is too small or none is: an Encode
      failure comes before anything of its batch was logged. */
  lemma {:induction false} EqualBuffersFailFirst(tx: seq<Buffer>, payloadSize: nat)
    requires EqualCapacities(tx)
    ensures FirstTooSmall(tx, payloadSize) == 0 || FirstTooSmall(tx, payloadSize) == |tx|
  {
    if |tx| > 1 && BufferHolds(tx[0].capacity, payloadSize) {
      EqualBuffersFailFirst(tx[1..], payloadSize);
      assert BufferHolds(tx[1].capacity, payloadSize) && FirstTooSmall(tx[1..], payloadSize) > 0;
    }
  }

  lemma {:induction false} RecordsStep(seqNo: nat, tsSent: int, len: nat, n: nat)
    ensures Records(seqNo, tsSent, len, n) + [MsgSent((seqNo + n) % UINT64, tsSent, len)]
         == Records(seqNo, tsSent, len, n + 1)
  {}

  lemma {:induction false} RecordsPrefix(seqNo: nat, tsSent: int, len: nat, n: nat, size: nat)
    requires n <= size
    ensures Records(seqNo, tsSent, len, size)[..n] == Records(seqNo, tsSent, len, n)
  {}

  // ----- What the socket calls say about the log -----

  /** The records that a run starting at number `first` keeps of these calls. */
  function RecordsOf(calls: seq<SendCall>, first: nat): seq<MsgSent> {
    if |calls| == 0 then []
    else
      var before, c := calls[..|calls| - 1], calls[|calls| - 1];
      RecordsOf(before, first) + Records((first + AcceptedTotal(before)) % UINT64, c.tsSent, c.len, c.accepted)
  }

  lemma {:induction false} RecordsOfLength(calls: seq<SendCall>, first: nat)
    ensures |RecordsOf(calls, first)| == AcceptedTotal(calls)
  {
    if |calls| > 0 {
      RecordsOfLength(calls[..|calls| - 1], first);
    }
  }

  lemma {:induction false} RecordsOfMore(calls: seq<SendCall>, c: SendCall, first: nat)
    ensures RecordsOf(calls + [c], first) ==
              RecordsOf(calls, first) + Records((first + AcceptedTotal(calls)) % UINT64, c.tsSent, c.len, c.accepted)
    ensures AcceptedTotal(calls + [c]) == AcceptedTotal(calls) + c.accepted
  {
    assert (calls + [c])[..|calls|] == calls;
  }

  /** The packets accepted by call i carry its send time and its length, and are
      numbered on from those of the calls before it. */
  lemma {:induction false} RecordAt(calls: seq<SendCall>, first: nat, i: nat, k: nat)
    requires i < |calls| && AcceptedTotal(calls[..i]) <= k < AcceptedTotal(calls[..i]) + calls[i].accepted
    ensures k < |RecordsOf(calls, first)|
    ensures RecordsOf(calls, first)[k] == MsgSent((first + k) % UINT64, calls[i].tsSent, calls[i].len)
  {
    var n := |calls| - 1;
    RecordsOfLength(calls[..n], first);
    if i < n {
      assert calls[..n][..i] == calls[..i];
      RecordAt(calls[..n], first, i, k);
    } else {
      WrapAdd(first + AcceptedTotal(calls[..n]), k - AcceptedTotal(calls[..n]));
    }
  }

  ghost predicate LogOk(msgs: seq<MsgSent>, wire: seq<Datagram>, calls: seq<SendCall>, seqNo: nat, first: nat) {
    && Mirrors(msgs, wire, first)
    && seqNo == (first + |wire|) % UINT64
    && msgs == RecordsOf(calls, first)
  }

  lemma {:induction false} LogExtend(msgs: seq<MsgSent>, wire: seq<Datagram>, calls: seq<SendCall>, first: nat,
                                     tx: seq<Buffer>, seqNo: nat, c: SendCall)
    requires LogOk(msgs, wire, calls, seqNo, first)
    requires Filled(tx, seqNo, c.len, c.accepted)
    ensures LogOk(msgs + Records(seqNo, c.tsSent, c.len, c.accepted), wire + Contents(tx[..c.accepted]), calls + [c],
                  (seqNo + c.accepted) % UINT64, first)
  {
    MirrorsExtend(msgs, wire, first, tx, seqNo, c.tsSent, c.len, c.accepted);
    RecordsOfMore(calls, c, first);
    RecordsOfLength(calls, first);
  }

  /** A call that was not accepted at all leaves the log as it is. */
  lemma {:induction false} LogUnchanged(msgs: seq<MsgSent>, wire: seq<Datagram>, calls: seq<SendCall>, first: nat,
                                        seqNo: nat, c: SendCall)
    requires LogOk(msgs, wire, calls, seqNo, first) && c.accepted == 0
    ensures LogOk(msgs, wire, calls + [c], seqNo, first)
  {
    RecordsOfMore(calls, c, first);
    assert Records((first + AcceptedTotal(calls)) % UINT64, c.tsSent, c.len, 0) == [];
  }

  /** The records of calls made one after the other are in the order of their times. */
  lemma {:induction false} RecordsInOrder(calls: seq<SendCall>, first: nat, since: int, until: int)
    requires Chained(calls, since, until)
    ensures TimesInOrder(RecordsOf(calls, first), until)
    ensures |calls| > 0 ==> TimesInOrder(RecordsOf(calls, first), calls[|calls| - 1].tsSent)
  {
    if |calls| > 0 {
      RecordsInOrder(calls[..|calls| - 1], first, since, until);
    }
  }

  class RateSender {
    const params: seq<RateParams>
    const pool: seq<byte>  // the process-wide padding pool
    var seqNo: nat
    var msgs: seq<MsgSent>
    var tx: seq<Buffer>
    var wire: seq<Datagram>  // what the socket accepted, in order
    ghost var calls: seq<SendCall>

    constructor (params: seq<RateParams>, pool: seq<byte>)
      ensures this.params == params && this.pool == pool && seqNo == 0
      ensures msgs == [] && tx == [] && wire == [] && calls == []
    {
      this.params, this.pool := params, pool;
      seqNo, msgs, tx, wire, calls := 0, [], [], [], [];
    }

    /** Everything sent since sequence number `first` is logged, in order. */
    ghost predicate Logged(first: nat)
      reads this
    {
      && |tx| == BATCH && |pool| > 0
      && LogOk(msgs, wire, calls, seqNo, first)
    }

    /** All buffers have the capacity they were made with. */
    ghost predicate Uniform()
      reads this
    {
      forall i :: 0 <= i < |tx| ==> tx[i].capacity == BUFFER_CAPACITY
    }

    /** The last call made since `from` left part of its batch behind. */
    ghost predicate ShortWrite(from: nat)
      reads this
    {
      from < |calls| && calls[|calls| - 1].accepted < calls[|calls| - 1].size
    }

    /** Encodes one batch into the buffers and appends its records. Stops at the
        first buffer that is too small, leaving the records before it behind. */
    method FillBatch(tsSent: int, size: nat, payloadSize: nat) returns (ok: bool)
      requires size <= |tx| && |pool| > 0
      modifies this`msgs, this`tx
      ensures SameCapacities(old(tx), tx) && FirstTooSmall(tx, payloadSize) == old(FirstTooSmall(tx, payloadSize))
      ensures ok <==> size <= FirstTooSmall(tx, payloadSize)
      ensures msgs == old(msgs) + Records(seqNo, tsSent, HEADER + payloadSize,
                                          if ok then size else FirstTooSmall(tx, payloadSize))
      ensures ok ==> Filled(tx, seqNo, HEADER + payloadSize, size)
    {
      ghost var tooSmall, len := FirstTooSmall(tx, payloadSize), HEADER + payloadSize;
      ghost var msgs0, tx0 := msgs, tx;
      var i := 0;
      while i < size
        invariant 0 <= i <= size && i <= tooSmall
        invariant BatchSoFar(msgs0, tx0, msgs, tx, seqNo, tsSent, len, i)
      {
        FirstTooSmallMeaning(tx0, payloadSize, i);
        if !BufferHolds(tx[i].capacity, payloadSize) {
          FirstTooSmallSame(tx0, tx, payloadSize);
          return false;
        }
        var m := Msg((seqNo + i) % UINT64, payloadSize);
        var d := EncodePadded(m, pool);
        FillOne(msgs0, tx0, msgs, tx, seqNo, tsSent, len, i, d);
        tx := tx[i := tx[i].(data := d)];
        msgs := msgs + [MsgSent(m.seqNo, tsSent, HEADER + payloadSize)];
        i := i + 1;
      }
      FirstTooSmallSame(tx0, tx, payloadSize);
      return true;
    }

    /** Sends up to `packets` datagrams in batches. Whatever mix of full,
        partial, empty, timed-out and failed writes the socket produces, the log
        equals what left, with the length asked for and a time read for its batch,
        and the sequence counter moved by exactly that many. */
    method SendRound(host: Host, deadline: int, packets: nat, payloadSize: nat, ghost first: nat)
      returns (sent: nat, err: Option<Error>)
      requires Logged(first)
      modifies this, host`clock, host`done, host`expiries, host`failures
      ensures sent <= packets
      ensures old(wire) <= wire && |wire| == |old(wire)| + sent
      ensures SameCapacities(old(tx), tx)
      ensures MovedOn(host, old(host.clock), old(host.expiries), old(host.failures), old(host.refusals), err)
      ensures old(calls) <= calls
      ensures Made(calls, |old(calls)|, old(host.clock), host.clock,
                   Terms(deadline, HEADER + payloadSize, FirstTooSmall(tx, payloadSize)))
      ensures sent < packets && err.None? ==> host.expiries > old(host.expiries) || ShortWrite(|old(calls)|)
      ensures err != Some(EncodeError) ==> Logged(first)
      ensures err == Some(EncodeError) ==>
        && FirstTooSmall(tx, payloadSize) < Min(packets - sent, BATCH)
        && |msgs| == |wire| + FirstTooSmall(tx, payloadSize)
        && LogOk(msgs[..|wire|], wire, calls, seqNo, first)
      ensures err == Some(EncodeError) && EqualCapacities(tx) ==> Logged(first)
    {
      var packetsLeft := packets;
      sent := 0;
      ghost var terms := Terms(deadline, HEADER + payloadSize, FirstTooSmall(tx, payloadSize));
      while packetsLeft > 0
        invariant sent + packetsLeft == packets
        invariant Logged(first)
        invariant old(wire) <= wire && |wire| == |old(wire)| + sent
        invariant SameCapacities(old(tx), tx) && FirstTooSmall(tx, payloadSize) == terms.room
        invariant MovedOn(host, old(host.clock), old(host.expiries), old(host.failures), old(host.refusals), None)
        invariant old(calls) <= calls && Made(calls, |old(calls)|, old(host.clock), host.clock, terms)
        decreases packetsLeft
      {
        ghost var before, clock0 := calls, host.clock;
        var now := host.Now();
        var expired := host.ContextExpired(now, Some(deadline));
        if expired {
          CallsGrow(old(calls), before, before, old(host.clock), clock0, now, now, terms);
          return sent, None;
        }
        var n, stop, e := SendBatch(host, deadline, Min(packetsLeft, BATCH), payloadSize, first);
        CallsGrow(old(calls), before, calls, old(host.clock), clock0, now, host.clock, terms);
        sent, packetsLeft := sent + n, packetsLeft - n;
        if stop {
          if e == Some(EncodeError) && EqualCapacities(tx) {
            EqualBuffersFailFirst(tx, payloadSize);
            assert msgs[..|wire|] == msgs;
          }
          return sent, e;
        }
      }
      return sent, None;
    }

    /** One iteration of the batch loop after its first expiry check. */
    method SendBatch(host: Host, deadline: int, size: nat, payloadSize: nat, ghost first: nat)
      returns (n: nat, stop: bool, err: Option<Error>)
      requires Logged(first)
      requires 0 < size <= BATCH
      modifies this, host`clock, host`done, host`expiries, host`failures
      ensures n <= size && (!stop ==> n == size && err.None?)
      ensures old(wire) <= wire && |wire| == |old(wire)| + n
      ensures SameCapacities(old(tx), tx) && FirstTooSmall(tx, payloadSize) == old(FirstTooSmall(tx, payloadSize))
      ensures MovedOn(host, old(host.clock), old(host.expiries), old(host.failures), old(host.refusals), err)
      ensures old(calls) <= calls
      ensures Made(calls, |old(calls)|, old(host.clock), host.clock,
                   Terms(deadline, HEADER + payloadSize, FirstTooSmall(tx, payloadSize)))
      ensures stop && err.None? ==> host.expiries > old(host.expiries) || ShortWrite(|old(calls)|)
      ensures err != Some(EncodeError) ==> Logged(first)
      ensures err == Some(EncodeError) ==>
        && n == 0 && FirstTooSmall(tx, payloadSize) < size
        && |msgs| == |wire| + FirstTooSmall(tx, payloadSize)
        && LogOk(msgs[..|wire|], wire, calls, seqNo, first)
    {
      ghost var clock0, before, logged := host.clock, calls, msgs;
      var tsSent := host.Now();
      var ok := FillBatch(tsSent, size, payloadSize);
      ghost var terms := Terms(deadline, HEADER + payloadSize, FirstTooSmall(tx, payloadSize));
      NoCalls(before, clock0, host.clock, terms);
      if !ok {
        assert msgs[..|wire|] == logged;
        return 0, true, Some(EncodeError);
      }
      n, stop, err := SendFilled(host, deadline, tsSent, size, clock0, terms, logged, first);
    }

    /** The filled batch is sent unless the context ends first. */
    method SendFilled(host: Host, deadline: int, tsSent: int, size: nat, ghost since: int, ghost terms: Terms,
                      ghost logged: seq<MsgSent>, ghost first: nat)
      returns (n: nat, stop: bool, err: Option<Error>)
      requires |tx| == BATCH && |pool| > 0 && 0 < size <= BATCH && since <= tsSent <= host.clock
      requires deadline == terms.deadline && size <= terms.room
      requires msgs == logged + Records(seqNo, tsSent, terms.len, size) && Filled(tx, seqNo, terms.len, size)
      requires LogOk(logged, wire, calls, seqNo, first)
      modifies this`msgs, this`wire, this`seqNo, this`calls, host`clock, host`done, host`expiries, host`failures
      ensures n <= size && (!stop ==> n == size && err.None?)
      ensures old(wire) <= wire && |wire| == |old(wire)| + n
      ensures MovedOn(host, old(host.clock), old(host.expiries), old(host.failures), old(host.refusals), err)
      ensures old(calls) <= calls && Made(calls, |old(calls)|, since, host.clock, terms)
      ensures stop && err.None? ==> host.expiries > old(host.expiries) || ShortWrite(|old(calls)|)
      ensures err != Some(EncodeError) && Logged(first)
    {
      var at := host.Now();
      var expired := host.ContextExpired(at, Some(deadline));
      NoCalls(calls, since, at, terms);
      if expired {
        msgs := msgs[..|msgs| - size];
        assert msgs == logged;
        return 0, true, None;
      }
      ghost var before := calls;
      n, err := Transmit(host, tsSent, at, size, terms.len, logged, first);
      OneCall(before, SendCall(tsSent, at, size, n, terms.len), since, at, terms);
      stop := n != size;
    }

    /** Hands the filled batch to the socket and keeps in the log exactly the
        records of the datagrams it accepted. Only a failure other than a timeout
        is reported. */
    method Transmit(host: Host, tsSent: int, ghost at: int, size: nat, ghost len: nat,
                    ghost logged: seq<MsgSent>, ghost first: nat)
      returns (n: nat, err: Option<Error>)
      requires 0 < size <= |tx|
      requires msgs == logged + Records(seqNo, tsSent, len, size)
      requires Filled(tx, seqNo, len, size)
      requires LogOk(logged, wire, calls, seqNo, first)
      modifies this`msgs, this`wire, this`seqNo, this`calls, host`failures
      ensures n <= size && (err.Some? ==> n == 0)
      ensures host.failures == old(host.failures) + if err.Some? then 1 else 0
      ensures err.Some? ==> err == Some(SocketError)
      ensures old(wire) <= wire && |wire| == |old(wire)| + n
      ensures calls == old(calls) + [SendCall(tsSent, at, size, n, len)]
      ensures LogOk(msgs, wire, calls, seqNo, first)
    {
      var r := host.SendMsgs(tx[..size]);
      ghost var call := SendCall(tsSent, at, size, if r.Accepted? then r.n else 0, len);
      ghost var before := calls;
      calls := calls + [call];
      match r
      case TimedOut =>
        msgs := msgs[..|msgs| - size];
        assert msgs == logged;
        LogUnchanged(logged, wire, before, first, seqNo, call);
        return 0, None;
      case Failed =>
        msgs := msgs[..|msgs| - size];
        assert msgs == logged;
        LogUnchanged(logged, wire, before, first, seqNo, call);
        return 0, Some(SocketError);
      case Accepted(accepted) =>
        LogExtend(logged, wire, before, first, tx, seqNo, call);
        RecordsPrefix(seqNo, tsSent, len, accepted, size);
        wire := wire + Contents(tx[..accepted]);
        msgs := msgs[..|msgs| - (size - accepted)];
        assert msgs == logged + Records(seqNo, tsSent, len, size)[..accepted];
        seqNo := (seqNo + accepted) % UINT64;
        return accepted, None;
    }

    ghost predicate AllFull(from: nat)
      reads this
    {
      Full(calls, from)
    }

    lemma {:induction false} UniformRoom(payloadSize: nat)
      requires |tx| == BATCH && Uniform()
      ensures FirstTooSmall(tx, payloadSize) == Room(payloadSize) && EqualCapacities(tx)
    {
      EqualBuffersFailFirst(tx, payloadSize);
      FirstTooSmallMeaning(tx, payloadSize, 0);
    }

    /** One ticker wake-up in a live segment that already sent `numPacketsSent`. */
    method ServeTick(host: Host, deadline: int, payloadSize: nat, ghost ticks: seq<Tick>, now: int, goal: nat,
                     numPacketsSent: nat, ghost first: nat)
      returns (n: nat, err: Option<Error>)
      requires Logged(first) && Uniform()
      requires NeverAhead(ticks) && numPacketsSent == Total(ticks)
      modifies this, host`clock, host`done, host`expiries, host`failures
      ensures NeverAhead(ticks + [Tick(now, goal, n)])
      ensures Total(ticks + [Tick(now, goal, n)]) == numPacketsSent + n
      ensures old(wire) <= wire && |wire| == |old(wire)| + n
      ensures Logged(first) && Uniform()
      ensures MovedOn(host, old(host.clock), old(host.expiries), old(host.failures), old(host.refusals), err)
      ensures old(calls) <= calls
      ensures Made(calls, |old(calls)|, old(host.clock), host.clock,
                   Terms(deadline, HEADER + payloadSize, Room(payloadSize)))
      ensures err == Some(EncodeError) ==> Room(payloadSize) == 0
      ensures AllWritesComplete(ticks) && err.None? && host.expiries == old(host.expiries) && AllFull(|old(calls)|)
          ==> AllWritesComplete(ticks + [Tick(now, goal, n)])
    {
      n, err := 0, None;
      if numPacketsSent < goal {
        n, err := SendRound(host, deadline, goal - numPacketsSent, payloadSize, first);
      }
      UniformRoom(payloadSize);
      AppendTick(ticks, Tick(now, goal, n));
    }

    /** Runs one segment inside its nominal window. It ends without an error only
        when the context does, and unless a clock reading came too late it has served
        every tick before that. */
    method RunSegment(host: Host, p: RateParams, start: int, end: int, outer: Option<int>, ghost first: nat)
      returns (err: Option<Error>, ghost run: Option<Segment>)
      requires Logged(first) && Uniform()
      modifies this, host
      ensures Logged(first) && Uniform()
      ensures old(wire) <= wire && old(calls) <= calls
      ensures MovedOn(host, old(host.clock), old(host.expiries), old(host.failures), old(host.refusals), err)
      ensures run.None? ==> wire == old(wire) && calls == old(calls)
      ensures run.None? && err.None? && host.expiries == old(host.expiries) ==> p.duration <= 0 || end <= host.clock
      ensures run.Some? ==>
        && run.value == Segment(start, end, p.pps, run.value.entry, run.value.ticks)
        && old(host.clock) <= run.value.entry <= host.clock && run.value.entry < Cap(end, outer)
        && run.value.Paced()
        && |wire| == |old(wire)| + Total(run.value.ticks)
        && Made(calls, |old(calls)|, run.value.entry, host.clock, TermsOf(p, end, outer))
      ensures err == Some(EncodeError) ==> Room(p.payloadSize) == 0
      ensures run.Some? && err.None? ==> host.expiries > old(host.expiries) || host.dones > old(host.dones)
      ensures run.Some? && err.None? && host.expiries == old(host.expiries) ==>
                |run.value.ticks| == if p.pps == 0 then 0 else old(host.ticksLeft)
      ensures run.Some? && err.None? && host.expiries == old(host.expiries) && AllFull(|old(calls)|)
          ==> AllWritesComplete(run.value.ticks)
    {
      run := None;
      var live, now;
      live, now, err := Admit(host, p, end, outer);
      if !live {
        return;
      }
      var s := Segment(start, end, p.pps, now, []);
      if p.pps == 0 {
        host.AwaitDone();
        return None, Some(s);
      }
      ghost var ticks, calm;
      err, ticks, calm := PaceLoop(host, GoalFunction(start, end, p.pps, now), p.payloadSize, Cap(end, outer), now,
                                   first);
      run := Some(s.(ticks := ticks));
    }

    /** Whether a segment is entered, and when. */
    method Admit(host: Host, p: RateParams, end: int, outer: Option<int>)
      returns (live: bool, now: int, err: Option<Error>)
      modifies host`clock, host`done, host`expiries, host`refusals
      ensures live ==> now == host.clock < Cap(end, outer) && err.None? && host.expiries == old(host.expiries)
      ensures MovedOn(host, old(host.clock), old(host.expiries), old(host.failures), old(host.refusals), err)
      ensures err != Some(EncodeError)
      ensures !live && err.None? && host.expiries == old(host.expiries) ==> p.duration <= 0 || end <= host.clock
    {
      now := host.Now();
      var expired := host.ContextExpired(now, outer);
      if p.duration <= 0 || !(now < end) || expired {
        return false, now, None;
      }
      var ok := host.SetWriteDeadline();
      return ok, now, if ok then None else Some(DeadlineError);
    }

    /** The segment so far: what it sent, asked for and called. If it is calm, no
        expiry check has come out true, and unless a write was cut short every tick
        was served in full. */
    ghost predicate SegmentSoFar(clock: int, first: nat, ticks: seq<Tick>, sent: nat, goalAt: int -> nat, entry: int,
                                 wire0: seq<Datagram>, calls0: seq<SendCall>, terms: Terms, calm: bool)
      reads this
    {
      && Logged(first) && Uniform() && entry <= clock
      && TicksSoFar(ticks, sent, goalAt, entry, clock, calm && Full(calls, |calls0|))
      && wire0 <= wire && |wire| == |wire0| + sent
      && calls0 <= calls && Made(calls, |calls0|, entry, clock, terms)
    }

    /** The select loop of a live segment. */
    method PaceLoop(host: Host, goalAt: int -> nat, payloadSize: nat, deadline: int, ghost entry: int,
                    ghost first: nat)
      returns (err: Option<Error>, ghost ticks: seq<Tick>, ghost calm: bool)
      requires Logged(first) && Uniform() && host.clock == entry
      modifies this, host
      ensures SegmentSoFar(host.clock, first, ticks, Total(ticks), goalAt, entry, old(wire), old(calls),
                           Terms(deadline, HEADER + payloadSize, Room(payloadSize)), calm)
      ensures calm <==> err.None? && host.expiries == old(host.expiries)
      ensures MovedOn(host, old(host.clock), old(host.expiries), old(host.failures), old(host.refusals), err)
      ensures err == Some(EncodeError) ==> Room(payloadSize) == 0
      ensures err.None? ==> host.expiries > old(host.expiries) || host.dones > old(host.dones)
      ensures calm ==> |ticks| == old(host.ticksLeft)
    {
      var numPacketsSent: nat, stop := 0, false;
      err, ticks, calm := None, [], true;
      ghost var terms := Terms(deadline, HEADER + payloadSize, Room(payloadSize));
      ghost var wire0, calls0 := wire, calls;
      EnterSegment(first, goalAt, entry, terms);
      while !stop
        invariant SegmentSoFar(host.clock, first, ticks, numPacketsSent, goalAt, entry, wire0, calls0, terms, calm)
        invariant calm ==> old(host.ticksLeft) == |ticks| + if stop then 0 else host.ticksLeft
        invariant calm <==> err.None? && host.expiries == old(host.expiries)
        invariant MovedOn(host, old(host.clock), old(host.expiries), old(host.failures), old(host.refusals), err)
        invariant !stop ==> err.None?
        invariant err == Some(EncodeError) ==> Room(payloadSize) == 0
        invariant host.dones >= old(host.dones)
        invariant stop && err.None? ==> host.expiries > old(host.expiries) || host.dones > old(host.dones)
        decreases !stop, host.ticksLeft
      {
        var live, now;
        live, now, calm := Look(host, deadline, first, ticks, numPacketsSent, goalAt, entry, wire0, calls0, terms,
                                calm);
        if live {
          var n;
          n, err, ticks, calm := Serve(host, deadline, payloadSize, first, ticks, now, goalAt, numPacketsSent, entry,
                                       wire0, calls0, calm);
          numPacketsSent := numPacketsSent + n;
        }
        stop := !live || err.Some?;
      }
    }

    lemma {:induction false} EnterSegment(first: nat, goalAt: int -> nat, entry: int, terms: Terms)
      requires Logged(first) && Uniform()
      ensures SegmentSoFar(entry, first, [], 0, goalAt, entry, wire, calls, terms, true)
    {
      NoCalls(calls, entry, entry, terms);
    }

    /** Waits for a tick and reads the clock; the segment is live if neither the wait
        ended with the context nor the reading is too late. */
    method Look(host: Host, deadline: int, ghost first: nat, ghost ticks: seq<Tick>, ghost sent: nat,
                ghost goalAt: int -> nat, ghost entry: int, ghost wire0: seq<Datagram>, ghost calls0: seq<SendCall>,
                ghost terms: Terms, ghost calm: bool)
      returns (live: bool, now: int, ghost calm': bool)
      requires SegmentSoFar(host.clock, first, ticks, sent, goalAt, entry, wire0, calls0, terms, calm)
      modifies host`clock, host`done, host`ticksLeft, host`expiries, host`dones
      ensures host.expiries == old(host.expiries) ==> (live <==> old(host.ticksLeft) > 0)
      ensures old(host.clock) <= host.clock && (live ==> now == host.clock < deadline && !host.done)
      ensures live ==> host.ticksLeft == old(host.ticksLeft) - 1 && host.expiries == old(host.expiries)
      ensures host.expiries >= old(host.expiries) && host.dones >= old(host.dones)
      ensures !live ==> host.expiries > old(host.expiries) || host.dones > old(host.dones)
      ensures SegmentSoFar(host.clock, first, ticks, sent, goalAt, entry, wire0, calls0, terms, calm')
      ensures calm' <==> calm && host.expiries == old(host.expiries)
    {
      var tick := host.NextTick();
      if !tick {
        return false, host.clock, calm;
      }
      now := host.Now();
      var expired := host.ContextExpired(now, Some(deadline));
      live, calm' := !expired, calm && !expired;
      CallsGrow(calls0, calls, calls, entry, old(host.clock), now, now, terms);
    }

    /** One live tick of the select loop. */
    method Serve(host: Host, deadline: int, payloadSize: nat, ghost first: nat, ghost ticks: seq<Tick>, now: int,
                 goalAt: int -> nat, numPacketsSent: nat, ghost entry: int, ghost wire0: seq<Datagram>,
                 ghost calls0: seq<SendCall>, ghost calm: bool)
      returns (n: nat, err: Option<Error>, ghost ticks': seq<Tick>, ghost calm': bool)
      requires SegmentSoFar(host.clock, first, ticks, numPacketsSent, goalAt, entry, wire0, calls0,
                            Terms(deadline, HEADER + payloadSize, Room(payloadSize)), calm)
      requires now == host.clock
      modifies this, host`clock, host`done, host`expiries, host`failures
      ensures SegmentSoFar(host.clock, first, ticks', numPacketsSent + n, goalAt, entry, wire0, calls0,
                           Terms(deadline, HEADER + payloadSize, Room(payloadSize)), calm')
      ensures calm' <==> calm && err.None? && host.expiries == old(host.expiries)
      ensures |ticks'| == |ticks| + 1
      ensures MovedOn(host, old(host.clock), old(host.expiries), old(host.failures), old(host.refusals), err)
      ensures err == Some(EncodeError) ==> Room(payloadSize) == 0
    {
      ghost var callsBefore, wireBefore := calls, wire;
      ghost var terms := Terms(deadline, HEADER + payloadSize, Room(payloadSize));
      var goal := goalAt(now);
      n, err := ServeTick(host, deadline, payloadSize, ticks, now, goal, numPacketsSent, first);
      CallsGrow(calls0, callsBefore, calls, entry, now, now, host.clock, terms);
      PrefixTrans(wire0, wireBefore, wire);
      AppendReading(ticks, Tick(now, goal, n), entry, goalAt);
      ticks' := ticks + [Tick(now, goal, n)];
      calm' := calm && err.None? && host.expiries == old(host.expiries);
    }

    /** Since the run began with `wire0` on the wire and `calls0` made, exactly
        the recorded segments, all below index k and left by now, added anything. */
    ghost predicate Accounted(clock: int, wire0: seq<Datagram>, calls0: seq<SendCall>, runs: seq<Run>, start: int,
                              outer: Option<int>, k: nat)
      reads this
    {
      && wire0 <= wire && |wire| == |wire0| + RunsTotal(runs)
      && Ledger(calls, calls0, runs, params, start, outer, k, clock)
    }

    /** Runs segment i in its nominal window and records that it ran. */
    method RunOne(host: Host, i: nat, boundary: int, end: int, ghost start: int, outer: Option<int>, ghost first: nat,
                  ghost wire0: seq<Datagram>, ghost calls0: seq<SendCall>, ghost runs: seq<Run>, ghost since: int)
      returns (err: Option<Error>, ghost runs': seq<Run>)
      requires Logged(first) && Uniform()
      requires i < |params| && params[i].duration > 0
      requires boundary == start + Boundary(params, i) && end == start + Boundary(params, i + 1)
      requires Accounted(since, wire0, calls0, runs, start, outer, i) && start <= since <= host.clock
      modifies this, host
      ensures Logged(first) && Uniform()
      ensures Accounted(host.clock, wire0, calls0, runs', start, outer, i + 1)
      ensures MovedOn(host, old(host.clock), old(host.expiries), old(host.failures), old(host.refusals), err)
      ensures runs <= runs'
      ensures err == Some(EncodeError) ==> SomeTooLong(params)
      ensures err.None? && host.expiries == old(host.expiries) ==> HasRun(runs', i) || end <= host.clock
    {
      ghost var run;
      err, run := RunSegment(host, params[i], boundary, end, outer, first);
      PrefixTrans(wire0, old(wire), wire);
      runs' := runs;
      if run.Some? {
        runs' := Enter(calls0, old(calls), calls, runs, i, run.value, params, start, outer, since, host.clock);
      } else {
        LaterLedger(calls, calls0, runs, params, start, outer, i, i + 1, since, host.clock);
      }
    }

    /** The run stands before segment i, at its nominal boundary. If it is calm, no
        expiry check has come out true and no segment was skipped that had time left. */
    ghost predicate Underway(clock: int, boundary: int, start: int, outer: Option<int>, first: nat,
                             wire0: seq<Datagram>, calls0: seq<SendCall>, runs: seq<Run>, i: nat, calm: bool)
      reads this
    {
      && i <= |params| && boundary == start + Boundary(params, i) && start <= clock
      && Logged(first) && Uniform() && Accounted(clock, wire0, calls0, runs, start, outer, i)
      && (calm ==> NoneSkipped(runs, params, start, clock, i))
    }

    lemma {:induction false} Begin(host: Host, start: int, outer: Option<int>, first: nat)
      requires Logged(first) && Uniform() && start <= host.clock
      ensures Underway(host.clock, start, start, outer, first, wire, calls, [], 0, true)
    {
      EmptyLedger(calls, params, start, outer, host.clock);
    }

    /** One turn of the schedule loop: the expiry check, then segment i unless
        it is empty or already over. Boundaries advance by nominal durations only. */
    method Visit(host: Host, i: nat, boundary: int, ghost start: int, outer: Option<int>, ghost first: nat,
                 ghost wire0: seq<Datagram>, ghost calls0: seq<SendCall>, ghost runs: seq<Run>, ghost calm: bool)
      returns (stop: bool, err: Option<Error>, next: int, ghost runs': seq<Run>, ghost calm': bool)
      requires i < |params| && Underway(host.clock, boundary, start, outer, first, wire0, calls0, runs, i, calm)
      modifies this, host
      ensures Logged(first) && Uniform()
      ensures Accounted(host.clock, wire0, calls0, runs', start, outer, |params|)
      ensures !stop ==> err.None?
      ensures !stop ==> Underway(host.clock, next, start, outer, first, wire0, calls0, runs', i + 1, calm')
      ensures calm' <==> calm && host.expiries == old(host.expiries)
      ensures MovedOn(host, old(host.clock), old(host.expiries), old(host.failures), old(host.refusals), err)
      ensures err == Some(EncodeError) ==> SomeTooLong(params)
      ensures stop && err.None? ==> host.expiries > old(host.expiries)
    {
      var p := params[i];
      var now := host.Now();
      var expired := host.ContextExpired(now, outer);
      if expired {
        LaterLedger(calls, calls0, runs, params, start, outer, i, |params|, old(host.clock), now);
        return true, None, boundary, runs, false;
      }
      if p.duration <= 0 {
        PassOver(old(host.clock), now, boundary, start, outer, first, wire0, calls0, runs, i, calm);
        return false, None, boundary, runs, calm;
      }
      next := boundary + p.duration;
      var late := host.Now();
      if !(late < next) {
        PassOver(old(host.clock), late, boundary, start, outer, first, wire0, calls0, runs, i, calm);
        return false, None, next, runs, calm;
      }
      err, runs', calm' := RunDue(host, i, boundary, next, start, outer, first, wire0, calls0, runs, calm,
                                  old(host.clock));
      stop := err.Some?;
    }

    /** Runs segment i, which is due, and steps to its end. */
    method RunDue(host: Host, i: nat, boundary: int, end: int, ghost start: int, outer: Option<int>, ghost first: nat,
                  ghost wire0: seq<Datagram>, ghost calls0: seq<SendCall>, ghost runs: seq<Run>, ghost calm: bool,
                  ghost since: int)
      returns (err: Option<Error>, ghost runs': seq<Run>, ghost calm': bool)
      requires i < |params| && Underway(since, boundary, start, outer, first, wire0, calls0, runs, i, calm)
      requires since <= host.clock && params[i].duration > 0 && end == boundary + params[i].duration
      modifies this, host
      ensures Logged(first) && Uniform()
      ensures Accounted(host.clock, wire0, calls0, runs', start, outer, |params|)
      ensures err.None? ==> Underway(host.clock, end, start, outer, first, wire0, calls0, runs', i + 1, calm')
      ensures calm' <==> calm && host.expiries == old(host.expiries)
      ensures MovedOn(host, old(host.clock), old(host.expiries), old(host.failures), old(host.refusals), err)
      ensures err == Some(EncodeError) ==> SomeTooLong(params)
    {
      err, runs' := RunOne(host, i, boundary, end, start, outer, first, wire0, calls0, runs, since);
      calm' := calm && host.expiries == old(host.expiries);
      LaterLedger(calls, calls0, runs', params, start, outer, i + 1, |params|, host.clock, host.clock);
      if err.None? && calm' {
        StillNoneSkipped(runs, runs', params, start, since, host.clock, i);
      }
    }

    /** A segment without duration, or whose window is over, is passed over. */
    lemma {:induction false} PassOver(clock: int, now: int, boundary: int, start: int, outer: Option<int>, first: nat,
                                      wire0: seq<Datagram>, calls0: seq<SendCall>, runs: seq<Run>, i: nat, calm: bool)
      requires i < |params| && clock <= now
      requires Underway(clock, boundary, start, outer, first, wire0, calls0, runs, i, calm)
      requires params[i].duration <= 0 || boundary + params[i].duration <= now
      ensures Underway(now, boundary + Max(0, params[i].duration), start, outer, first, wire0, calls0, runs, i + 1,
                       calm)
      ensures Accounted(now, wire0, calls0, runs, start, outer, |params|)
    {
      LaterLedger(calls, calls0, runs, params, start, outer, i, i + 1, clock, now);
      LaterLedger(calls, calls0, runs, params, start, outer, i, |params|, clock, now);
      StillNoneSkipped(runs, runs, params, start, clock, now, i);
    }

    method RunSegments(host: Host, start: int, outer: Option<int>, ghost first: nat)
      returns (err: Option<Error>, ghost runs: seq<Run>)
      requires Logged(first) && Uniform() && start <= host.clock
      modifies this, host
      ensures Logged(first)
      ensures Accounted(host.clock, old(wire), old(calls), runs, start, outer, |params|)
      ensures MovedOn(host, old(host.clock), old(host.expiries), old(host.failures), old(host.refusals), err)
      ensures err == Some(EncodeError) ==> SomeTooLong(params)
      ensures err.None? && host.expiries == old(host.expiries) ==>
                NoneSkipped(runs, params, start, host.clock, |params|)
    {
      var boundary := start;
      runs := [];
      Begin(host, start, outer, first);
      ghost var wire0, calls0, calm := wire, calls, true;
      for i := 0 to |params|
        invariant Underway(host.clock, boundary, start, outer, first, wire0, calls0, runs, i, calm)
        invariant calm <==> host.expiries == old(host.expiries)
        invariant MovedOn(host, old(host.clock), old(host.expiries), old(host.failures), old(host.refusals), None)
      {
        var stop;
        stop, err, boundary, runs, calm := Visit(host, i, boundary, start, outer, first, wire0, calls0, runs, calm);
        if stop {
          return err, runs;
        }
      }
      return None, runs;
    }

    /** Total planned time: non-positive durations count as zero. */
    method GetDuration() returns (d: int)
      ensures d == Boundary(params, |params|)
    {
      d := 0;
      for i := 0 to |params|
        invariant d == Boundary(params, i)
      {
        d := d + Max(0, params[i].duration);
      }
    }

    /** A whole run: fresh buffers and an empty log, but the sequence counter
        continues from wherever the sender left it. What is logged is exactly what
        its socket calls accepted, each packet with the length that its segment asks
        for and a time read between the previous call and its own. */
    method RunAll(host: Host, outer: Option<int>)
      returns (result: Option<seq<MsgSent>>, err: Option<Error>, ghost runs: seq<Run>)
      requires |pool| > 0 && seqNo < UINT64
      modifies this, host
      ensures result == if err.Some? then None else Some(msgs)
      ensures Mirrors(msgs, wire, old(seqNo)) && TimesInOrder(msgs, host.clock)
      ensures msgs == RecordsOf(calls, old(seqNo)) && Chained(calls, old(host.clock), host.clock)
      ensures |wire| == RunsTotal(runs) && calls == RunsCalls(runs)
      ensures |wire| <= PlanTotal(params, |params|)
      ensures host.failures == old(host.failures) + if err == Some(SocketError) then 1 else 0
      ensures host.refusals == old(host.refusals) + if err == Some(DeadlineError) then 1 else 0
      ensures err == Some(EncodeError) ==> SomeTooLong(params)
      ensures exists start :: old(host.clock) <= start && OnSchedule(runs, params, start, outer)
                              && (result.Some? && host.expiries == old(host.expiries) ==>
                                    NoneSkipped(runs, params, start, host.clock, |params|))
    {
      ghost var first := seqNo;
      var start := host.Now();
      Reset();
      err, runs := RunSegments(host, start, outer, first);
      Summary(runs, calls, params, start, outer, first, old(host.clock), host.clock);
      result := if err.Some? then None else Some(msgs);
    }

    /** Fresh buffers and an empty log. */
    method Reset()
      requires |pool| > 0 && seqNo < UINT64
      modifies this`msgs, this`tx, this`wire, this`calls
      ensures Logged(seqNo) && Uniform() && wire == [] && calls == []
    {
      msgs, wire, calls := [], [], [];
      tx := seq(BATCH, i => Buffer(BUFFER_CAPACITY, []));
    }
  }

  /** How many datagrams of this payload a batch can hold: all or none. */
  function Room(payloadSize: nat): nat { if BufferHolds(BUFFER_CAPACITY, payloadSize) then BATCH else 0 }

  ghost predicate SomeTooLong(params: seq<RateParams>) {
    exists i :: 0 <= i < |params| && HEADER + params[i].payloadSize > BUFFER_CAPACITY
  }

  /** What a segment with parameters p that ends at `end` asks of its calls. */
  function TermsOf(p: RateParams, end: int, outer: Option<int>): Terms {
    Terms(Cap(end, outer), HEADER + p.payloadSize, Room(p.payloadSize))
  }

  /** All calls between two readings of the clock, each stamped no earlier than the
      previous one was made. */
  ghost predicate Chained(calls: seq<SendCall>, since: int, until: int) {
    && (forall i :: 0 <= i < |calls| ==> since <= calls[i].tsSent <= calls[i].at <= until)
    && (forall i :: 0 < i < |calls| ==> calls[i - 1].at <= calls[i].tsSent)
  }

  /** One executed segment: its index in the schedule, what happened in it, the
      socket calls it made and when it was left. */
  datatype Run = Run(index: nat, segment: Segment, calls: seq<SendCall>, left: int)

  function RunsTotal(runs: seq<Run>): nat {
    if |runs| == 0 then 0 else RunsTotal(runs[..|runs| - 1]) + Total(runs[|runs| - 1].segment.ticks)
  }

  function RunsCalls(runs: seq<Run>): seq<SendCall> {
    if |runs| == 0 then [] else RunsCalls(runs[..|runs| - 1]) + runs[|runs| - 1].calls
  }

  /** Nominal offset of segment k: the durations before it, drift excluded. */
  function Boundary(params: seq<RateParams>, k: nat): int
    requires k <= |params|
  {
    if k == 0 then 0 else Boundary(params, k - 1) + Max(0, params[k - 1].duration)
  }

  /** An executed segment ran in its nominal window. It called the socket only
      between its entry and its end, before the outer deadline, with datagrams of
      the length its parameters ask for. */
  ghost predicate RunOnSchedule(r: Run, params: seq<RateParams>, start: int, outer: Option<int>) {
    && r.index < |params| && params[r.index].duration > 0
    && r.segment.start == start + Boundary(params, r.index)
    && r.segment.end == start + Boundary(params, r.index + 1)
    && r.segment.pps == params[r.index].pps
    && r.segment.Paced() && start <= r.segment.entry <= r.left && r.segment.entry < Cap(r.segment.end, outer)
    && Made(r.calls, 0, r.segment.entry, r.left, TermsOf(params[r.index], r.segment.end, outer))
  }

  ghost predicate OnSchedule(runs: seq<Run>, params: seq<RateParams>, start: int, outer: Option<int>) {
    && (forall j :: 0 <= j < |runs| ==> RunOnSchedule(runs[j], params, start, outer))
    && (forall i, j :: 0 <= i < j < |runs| ==> runs[i].index < runs[j].index && runs[i].left <= runs[j].segment.entry)
  }

  ghost predicate AllBelow(runs: seq<Run>, k: nat) {
    forall j :: 0 <= j < |runs| ==> runs[j].index < k
  }

  ghost predicate HasRun(runs: seq<Run>, k: nat) {
    exists j :: 0 <= j < |runs| && runs[j].index == k
  }

  /** Every segment below k that has a duration ran, or its window had already
      passed when its turn came. */
  ghost predicate NoneSkipped(runs: seq<Run>, params: seq<RateParams>, start: int, clock: int, k: nat)
    requires k <= |params|
  {
    forall i :: 0 <= i < k && params[i].duration > 0 ==> HasRun(runs, i) || start + Boundary(params, i + 1) <= clock
  }

  lemma {:induction false} StillNoneSkipped(runs: seq<Run>, runs': seq<Run>, params: seq<RateParams>, start: int,
                                            clock: int, clock': int,
                         k: nat)
    requires k < |params| && runs <= runs' && clock <= clock'
    requires params[k].duration <= 0 || HasRun(runs', k) || start + Boundary(params, k + 1) <= clock'
    ensures NoneSkipped(runs, params, start, clock, k) ==> NoneSkipped(runs', params, start, clock', k + 1)
  {
    forall i | 0 <= i < k && HasRun(runs, i) ensures HasRun(runs', i) {
      var j :| 0 <= j < |runs| && runs[j].index == i;
      assert runs'[j] == runs[j];
    }
  }

  ghost predicate AllLeftBy(runs: seq<Run>, clock: int) {
    forall j :: 0 <= j < |runs| ==> runs[j].left <= clock
  }

  ghost predicate Ledger(calls: seq<SendCall>, calls0: seq<SendCall>, runs: seq<Run>, params: seq<RateParams>,
                         start: int, outer: Option<int>, k: nat, clock: int) {
    && calls == calls0 + RunsCalls(runs)
    && OnSchedule(runs, params, start, outer) && AllBelow(runs, k) && AllLeftBy(runs, clock)
  }

  lemma {:induction false} EmptyLedger(calls: seq<SendCall>, params: seq<RateParams>, start: int, outer: Option<int>,
                                       clock: int)
    ensures Ledger(calls, calls, [], params, start, outer, 0, clock)
  {
    assert calls + RunsCalls([]) == calls;
  }

  lemma {:induction false} LaterLedger(calls: seq<SendCall>, calls0: seq<SendCall>, runs: seq<Run>,
                                       params: seq<RateParams>, start: int, outer: Option<int>, k: nat, k': nat,
                                       clock: int, clock': int)
    requires Ledger(calls, calls0, runs, params, start, outer, k, clock) && k <= k' && clock <= clock'
    ensures Ledger(calls, calls0, runs, params, start, outer, k', clock')
  {
  }

  /** Entering a finished segment into the ledger. */
  lemma {:induction false} Enter(calls0: seq<SendCall>, before: seq<SendCall>, after: seq<SendCall>, runs: seq<Run>,
                                 i: nat, s: Segment, params: seq<RateParams>, start: int, outer: Option<int>,
                                 clock: int, left: int)
    returns (runs': seq<Run>)
    requires Ledger(before, calls0, runs, params, start, outer, i, clock) && start <= clock <= s.entry <= left
    requires i < |params| && params[i].duration > 0 && s.Paced() && s.pps == params[i].pps
    requires s.start == start + Boundary(params, i) && s.end == start + Boundary(params, i + 1)
    requires s.entry < Cap(s.end, outer)
    requires before <= after && Made(after, |before|, s.entry, left, TermsOf(params[i], s.end, outer))
    ensures Ledger(after, calls0, runs', params, start, outer, i + 1, left)
    ensures RunsTotal(runs') == RunsTotal(runs) + Total(s.ticks)
    ensures runs <= runs' && |runs'| == |runs| + 1 && runs'[|runs|].index == i
  {
    var r := Run(i, s, after[|before|..], left);
    runs' := runs + [r];
    AppendTotals(runs, r);
    AppendCalls(calls0, before, after, runs, r);
    OwnCalls(after, |before|, s.entry, left, TermsOf(params[i], s.end, outer));
    WithCalls(i, s, r.calls, left, params, start, outer);
    AppendRun(runs, r, params, start, outer, clock);
  }

  lemma {:induction false} AppendCalls(calls0: seq<SendCall>, before: seq<SendCall>, after: seq<SendCall>,
                                       runs: seq<Run>, r: Run)
    requires before == calls0 + RunsCalls(runs) && before <= after && r.calls == after[|before|..]
    ensures after == calls0 + RunsCalls(runs + [r])
  {
    AppendTotals(runs, r);
    assert after == before + r.calls;
    assert calls0 + RunsCalls(runs) + r.calls == calls0 + (RunsCalls(runs) + r.calls);
  }

  lemma {:induction false} WithCalls(i: nat, s: Segment, calls: seq<SendCall>, left: int, params: seq<RateParams>,
                                     start: int, outer: Option<int>)
    requires i < |params| && params[i].duration > 0 && s.Paced() && s.pps == params[i].pps && start <= s.entry <= left
    requires s.start == start + Boundary(params, i) && s.end == start + Boundary(params, i + 1)
    requires s.entry < Cap(s.end, outer)
    requires Made(calls, 0, s.entry, left, TermsOf(params[i], s.end, outer))
    ensures RunOnSchedule(Run(i, s, calls, left), params, start, outer)
  {
  }

  lemma {:induction false} AppendTotals(runs: seq<Run>, r: Run)
    ensures RunsCalls(runs + [r]) == RunsCalls(runs) + r.calls
    ensures RunsTotal(runs + [r]) == RunsTotal(runs) + Total(r.segment.ticks)
  {
    assert (runs + [r])[..|runs|] == runs;
  }

  lemma {:induction false} OwnCalls(calls: seq<SendCall>, from: nat, since: int, until: int, t: Terms)
    requires Made(calls, from, since, until, t)
    ensures Made(calls[from..], 0, since, until, t)
  {
    forall i | 0 <= i < |calls[from..]| ensures calls[from..][i] == calls[from + i] {
    }
  }

  lemma {:induction false} AppendRun(runs: seq<Run>, r: Run, params: seq<RateParams>, start: int, outer: Option<int>,
                                     clock: int)
    requires OnSchedule(runs, params, start, outer) && AllBelow(runs, r.index) && AllLeftBy(runs, clock)
    requires RunOnSchedule(r, params, start, outer) && clock <= r.segment.entry
    ensures OnSchedule(runs + [r], params, start, outer) && AllBelow(runs + [r], r.index + 1)
    ensures AllLeftBy(runs + [r], r.left)
  {
  }

  /** Across segments, too, no call is stamped before the previous one was made. */
  lemma {:induction false} RunsAreChained(runs: seq<Run>, params: seq<RateParams>, start: int, outer: Option<int>,
                                          since: int, until: int)
    requires OnSchedule(runs, params, start, outer) && AllLeftBy(runs, until) && since <= start
    ensures Chained(RunsCalls(runs), since, until)
  {
    if |runs| > 0 {
      var n := |runs| - 1;
      var mid := runs[n].segment.entry;
      assert RunOnSchedule(runs[n], params, start, outer);
      RunsAreChained(runs[..n], params, start, outer, since, mid);
      JoinChained(RunsCalls(runs[..n]), runs[n].calls, since, mid, until);
    }
  }

  lemma {:induction false} JoinChained(a: seq<SendCall>, b: seq<SendCall>, since: int, mid: int, until: int)
    requires Chained(a, since, mid) && Chained(b, mid, until) && since <= mid <= until
    ensures Chained(a + b, since, until)
  {
  }

  /** What the ledger of a whole run adds up to. */
  lemma {:induction false} Summary(runs: seq<Run>, calls: seq<SendCall>, params: seq<RateParams>, start: int,
                                   outer: Option<int>, first: nat, since: int, until: int)
    requires Ledger(calls, [], runs, params, start, outer, |params|, until) && since <= start
    ensures calls == RunsCalls(runs) && Chained(calls, since, until)
    ensures TimesInOrder(RecordsOf(calls, first), until) && RunsTotal(runs) <= PlanTotal(params, |params|)
  {
    assert calls == [] + RunsCalls(runs) == RunsCalls(runs);
    RunTotalBound(runs, params, start, outer);
    RunsAreChained(runs, params, start, outer, since, until);
    RecordsInOrder(calls, first, since, until);
  }

  /** The packets of an executed segment carry the length that its parameters ask
      for, and a send time within its window. */
  lemma {:induction false} SegmentRecord(runs: seq<Run>, params: seq<RateParams>, start: int, outer: Option<int>,
                                         first: nat, j: nat, i: nat, k: nat)
    requires OnSchedule(runs, params, start, outer) && j < |runs| && i < |runs[j].calls|
    requires var before := RunsCalls(runs[..j]) + runs[j].calls[..i];
             AcceptedTotal(before) <= k < AcceptedTotal(before) + runs[j].calls[i].accepted
    ensures k < |RecordsOf(RunsCalls(runs), first)|
    ensures var m := RecordsOf(RunsCalls(runs), first)[k];
            && m.seqNo == (first + k) % UINT64 && m.len == HEADER + params[runs[j].index].payloadSize
            && runs[j].segment.entry <= m.tsSent < runs[j].segment.end
            && m.tsSent == runs[j].calls[i].tsSent
  {
    CallOfRun(runs, j, i);
    RecordAt(RunsCalls(runs), first, |RunsCalls(runs[..j])| + i, k);
    assert RunOnSchedule(runs[j], params, start, outer);
    assert MadeCall(runs[j].calls[i], runs[j].segment.entry, runs[j].left,
                    TermsOf(params[runs[j].index], runs[j].segment.end, outer));
  }

  lemma {:induction false} CallOfRun(runs: seq<Run>, j: nat, i: nat)
    requires j < |runs| && i < |runs[j].calls|
    ensures |RunsCalls(runs[..j])| + i < |RunsCalls(runs)|
    ensures RunsCalls(runs)[|RunsCalls(runs[..j])| + i] == runs[j].calls[i]
    ensures RunsCalls(runs)[..|RunsCalls(runs[..j])| + i] == RunsCalls(runs[..j]) + runs[j].calls[..i]
  {
    var n := |runs| - 1;
    if j < n {
      assert runs[..n][..j] == runs[..j];
      CallOfRun(runs[..n], j, i);
    }
  }

  /** Sum of the whole-packet demands of the first k segments. */
  function PlanTotal(params: seq<RateParams>, k: nat): nat
    requires k <= |params|
  {
    if k == 0 then 0 else PlanTotal(params, k - 1) + Demand(params[k - 1].duration, params[k - 1].pps)
  }

  lemma {:induction false} PlanTotalMonotone(params: seq<RateParams>, j: nat, k: nat)
    requires j <= k <= |params|
    ensures PlanTotal(params, j) <= PlanTotal(params, k)
  {
    if j < k {
      PlanTotalMonotone(params, j, k - 1);
    }
  }

  /** Neither debt nor fractional credit crosses a boundary: a run sends at most
      the sum of the per-segment floors, whatever the clock and socket did. */
  lemma {:induction false} RunTotalBound(runs: seq<Run>, params: seq<RateParams>, start: int, outer: Option<int>)
    requires OnSchedule(runs, params, start, outer)
    ensures RunsTotal(runs) <= PlanTotal(params, |params|)
  {
    forall j | 0 <= j < |runs| ensures WithinPlan(runs[j], params) {
      SegmentWithinPlan(runs[j], params, start, outer);
    }
    SumWithinPlan(runs, params);
    PlanTotalMonotone(params, if |runs| == 0 then 0 else runs[|runs| - 1].index + 1, |params|);
  }

  ghost predicate WithinPlan(r: Run, params: seq<RateParams>) {
    r.index < |params| && Total(r.segment.ticks) <= Demand(params[r.index].duration, params[r.index].pps)
  }

  lemma {:induction false} SumWithinPlan(runs: seq<Run>, params: seq<RateParams>)
    requires forall j :: 0 <= j < |runs| ==> WithinPlan(runs[j], params)
    requires forall i, j :: 0 <= i < j < |runs| ==> runs[i].index < runs[j].index
    ensures |runs| > 0 ==> runs[|runs| - 1].index < |params|
    ensures RunsTotal(runs) <= PlanTotal(params, if |runs| == 0 then 0 else runs[|runs| - 1].index + 1)
  {
    if |runs| > 0 {
      var prefix, r := runs[..|runs| - 1], runs[|runs| - 1];
      SumWithinPlan(prefix, params);
      PlanTotalMonotone(params, if |prefix| == 0 then 0 else prefix[|prefix| - 1].index + 1, r.index);
    }
  }

  lemma {:induction false} SegmentWithinPlan(r: Run, params: seq<RateParams>, start: int, outer: Option<int>)
    requires RunOnSchedule(r, params, start, outer)
    ensures WithinPlan(r, params)
  {
    SegmentCap(r.segment);
  }

  /** Deadline of the segment context: its end, or an earlier outer deadline. */
  function Cap(end: int, outer: Option<int>): (cap: int)
    ensures cap <= end && (outer.Some? ==> cap <= outer.value)
    ensures cap == end || outer == Some(cap)
  {
    if outer.Some? then Min(end, outer.value) else end
  }

  /** Encode with padding drawn from the shared pool at a random offset. */
  method EncodePadded(m: Msg, pool: seq<byte>) returns (d: Datagram)
    requires |pool| > 0
    ensures |d| == HEADER + m.padN && DecodeSeq(d) == m.seqNo % UINT64
  {
    var offset :| 0 <= offset < |pool|;
    EncodeDecode(m, Window(pool, offset, m.padN));
    d := Encoded(m, Window(pool, offset, m.padN));
  }
}
