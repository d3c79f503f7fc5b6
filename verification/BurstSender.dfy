/** The burst sender: all datagrams are encoded up front and handed to the
    socket in batches of 1024 until one of them is cut short. */
module BurstSending {
  import opened Basics
  import opened Wire
  import opened RateSending

  /** Unlike the rate sender, the burst sender also copes with a socket that
      reports an error together with a count. */
  datatype Outcome = Outcome(n: int, err: Option<SocketFault>)
  datatype SocketFault = Timeout | Other

  class Socket {
    ghost var accepted: seq<Datagram>
    ghost var cutShort: bool  // some batch failed or did not go out completely
    ghost var broken: bool  // some batch failed other than by timeout

    constructor ()
      ensures accepted == [] && !cutShort && !broken
    {
      accepted, cutShort, broken := [], false, false;
    }

    method SendMsgs(batch: seq<Datagram>) returns (o: Outcome)
      modifies this
      ensures -1 <= o.n <= |batch| && (o.err.None? ==> o.n >= 0)
      ensures accepted == old(accepted) + batch[..Max(0, o.n)]
      ensures cutShort == (old(cutShort) || o.n != |batch| || o.err.Some?)
      ensures broken == (old(broken) || o.err == Some(Other))
    {
      var n: int := *;
      var timeout: bool := *;
      var fault: bool := *;
      n := Max(if fault then -1 else 0, Min(n, |batch|));
      o := Outcome(n, if fault then Some(if timeout then Timeout else Other) else None);
      accepted := accepted + batch[..Max(0, n)];
      cutShort, broken := cutShort || n != |batch| || fault, broken || (fault && !timeout);
    }
  }

  /** msgs[i] is the datagram numbered i, 8 + pad bytes long. */
  ghost predicate Numbered(msgs: seq<Datagram>, pad: nat) {
    forall i :: 0 <= i < |msgs| ==> |msgs[i]| == HEADER + pad && DecodeSeq(msgs[i]) == i % UINT64
  }

  /** log[i] describes datagram i, apart from its send time. */
  ghost predicate NumberedLog(log: seq<MsgSent>, pad: nat) {
    forall i :: 0 <= i < |log| ==> log[i].seqNo == i % UINT64 && log[i].len == HEADER + pad
  }

  method EncodeAll(num: nat, pad: nat, pool: seq<byte>) returns (msgs: Option<seq<Datagram>>, log: array<MsgSent>)
    requires |pool| > 0
    ensures msgs.None? <==> num > 0 && HEADER + pad > BUFFER_CAPACITY
    ensures fresh(log) && log.Length == num
    ensures msgs.Some? ==> |msgs.value| == num && Numbered(msgs.value, pad) && NumberedLog(log[..], pad)
  {
    log := new MsgSent[num];
    var out: seq<Datagram> := [];
    for i := 0 to num
      invariant |out| == i && Numbered(out, pad)
      invariant NumberedLog(log[..i], pad)
      invariant i > 0 ==> HEADER + pad <= BUFFER_CAPACITY
    {
      if HEADER + pad > BUFFER_CAPACITY {
        return None, log;
      }
      var d := EncodePadded(Msg(i % UINT64, pad), pool);
      out := out + [d];
      log[i] := MsgSent(i % UINT64, ZERO_TIME, HEADER + pad);
      assert log[..i + 1] == log[..i] + [log[i]];
    }
    assert log[..num] == log[..];
    return Some(out), log;
  }

  /** BurstSender.run: the returned records are exactly the accepted prefix, in
      order, whichever way the burst ended: each of the length asked for, stamped
      with a time read for its batch. It ends early only because the context expired
      or the socket cut a batch short, and without a result only if encoding or a
      write failed. */
  method BurstRun(host: Host, socket: Socket, num: nat, pad: nat, pool: seq<byte>)
    returns (result: Option<seq<MsgSent>>, ghost calls: seq<SendCall>)
    requires |pool| > 0 && socket.accepted == [] && !socket.cutShort && !socket.broken
    modifies host, socket
    ensures result.Some? ==> Mirrors(result.value, socket.accepted, 0)
    ensures result.Some? ==> result.value == RecordsOf(calls, 0) && TimesInOrder(result.value, host.clock)
    ensures Made(calls, 0, old(host.clock), host.clock, Terms(host.clock + 1, HEADER + pad, BATCH))
    ensures result.Some? && |result.value| < num ==> host.expiries > old(host.expiries) || socket.cutShort
    ensures result.None? <==> socket.broken || (num > 0 && HEADER + pad > BUFFER_CAPACITY)
    ensures num > 0 && HEADER + pad > BUFFER_CAPACITY ==> socket.accepted == []
  {
    calls := [];
    var encoded, log := EncodeAll(num, pad, pool);
    if encoded.None? {
      return None, [];
    }
    var msgs := encoded.value;
    var sentN := 0;
    while sentN < num
      invariant sentN <= num && !socket.cutShort && !socket.broken
      invariant SentSoFar(host.clock, socket.accepted, msgs, log[..], calls, sentN, pad, old(host.clock))
      invariant host.expiries == old(host.expiries)
    {
      ghost var before := host.clock;
      var now := host.Now();
      var expired := host.ContextExpired(now, None);
      LaterSent(before, now, socket.accepted, msgs, log[..], calls, sentN, pad, old(host.clock));
      if expired {
        SentIsLogged(now, socket.accepted, msgs, log[..], calls, sentN, pad, old(host.clock));
        return Some(log[..sentN]), calls;
      }
      var numRound := Min(BATCH, num - sentN);
      var o;
      sentN, o, calls := BurstBatch(host, socket, msgs, log, sentN, numRound, pad, calls, old(host.clock));
      SentIsLogged(host.clock, socket.accepted, msgs, log[..], calls, sentN, pad, old(host.clock));
      if o.err.Some? {
        return if o.err.value.Timeout? then Some(log[..sentN]) else None, calls;
      }
      if o.n != numRound {
        return Some(log[..sentN]), calls;
      }
    }
    SentIsLogged(host.clock, socket.accepted, msgs, log[..], calls, sentN, pad, old(host.clock));
    return Some(log[..sentN]), calls;
  }

  /** The first n datagrams are out, logged as the calls made so far accepted them. */
  ghost predicate SentSoFar(clock: int, accepted: seq<Datagram>, msgs: seq<Datagram>, log: seq<MsgSent>,
                            calls: seq<SendCall>, n: nat, pad: nat, since: int) {
    && n <= |msgs| == |log| && accepted == msgs[..n] && Numbered(msgs, pad) && NumberedLog(log, pad)
    && since <= clock && log[..n] == RecordsOf(calls, 0)
    && Made(calls, 0, since, clock, Terms(clock + 1, HEADER + pad, BATCH))
  }

  lemma {:induction false} LaterSent(clock: int, now: int, accepted: seq<Datagram>, msgs: seq<Datagram>,
                                     log: seq<MsgSent>, calls: seq<SendCall>, n: nat, pad: nat, since: int)
    requires SentSoFar(clock, accepted, msgs, log, calls, n, pad, since) && clock <= now
    ensures SentSoFar(now, accepted, msgs, log, calls, n, pad, since)
  {
    forall i | 0 <= i < |calls| ensures MadeCall(calls[i], since, now, Terms(now + 1, HEADER + pad, BATCH)) {
      assert MadeCall(calls[i], since, clock, Terms(clock + 1, HEADER + pad, BATCH));
    }
  }

  lemma {:induction false} SentIsLogged(clock: int, accepted: seq<Datagram>, msgs: seq<Datagram>, log: seq<MsgSent>,
                                        calls: seq<SendCall>, n: nat, pad: nat, since: int)
    requires SentSoFar(clock, accepted, msgs, log, calls, n, pad, since)
    ensures Mirrors(log[..n], accepted, 0) && TimesInOrder(log[..n], clock)
  {
    forall i | 0 <= i < n ensures Describes(log[..n][i], msgs[..n][i], 0 + i) {
      assert log[..n][i] == log[i] && msgs[..n][i] == msgs[i];
    }
    assert Chained(calls, since, clock) by {
      forall i | 0 <= i < |calls| ensures since <= calls[i].tsSent <= calls[i].at <= clock {
        assert MadeCall(calls[i], since, clock, Terms(clock + 1, HEADER + pad, BATCH));
      }
    }
    RecordsInOrder(calls, 0, since, clock);
  }

  /** Stamps one batch with the time read for it and hands it to the socket. */
  method BurstBatch(host: Host, socket: Socket, msgs: seq<Datagram>, log: array<MsgSent>, sentN: nat, numRound: nat,
                    ghost pad: nat, ghost calls: seq<SendCall>, ghost since: int)
    returns (total: nat, o: Outcome, ghost calls': seq<SendCall>)
    requires sentN + numRound <= |msgs| == log.Length && 0 < numRound <= BATCH
    requires SentSoFar(host.clock, socket.accepted, msgs, log[..], calls, sentN, pad, since)
    modifies host`clock, socket, log
    ensures total == sentN + Max(0, o.n) <= sentN + numRound && (o.err.None? ==> o.n >= 0)
    ensures socket.cutShort == (old(socket.cutShort) || o.err.Some? || o.n != numRound)
    ensures socket.broken == (old(socket.broken) || o.err == Some(Other))
    ensures old(host.clock) <= host.clock
    ensures SentSoFar(host.clock, socket.accepted, msgs, log[..], calls', total, pad, since)
    ensures |calls'| == |calls| + 1 && calls <= calls' && old(host.clock) <= calls'[|calls|].tsSent
  {
    var tsSent := host.Now();
    ghost var log0 := log[..];
    LaterSent(old(host.clock), tsSent, socket.accepted, msgs, log0, calls, sentN, pad, since);
    Stamp(log, sentN, numRound, tsSent, pad);
    o := socket.SendMsgs(msgs[sentN..sentN + numRound]);
    total := sentN + Max(0, o.n);
    ghost var call := SendCall(tsSent, tsSent, numRound, Max(0, o.n), HEADER + pad);
    calls' := calls + [call];
    assert msgs[..total] == msgs[..sentN] + msgs[sentN..sentN + numRound][..Max(0, o.n)];
    BatchLogged(log0, log[..], calls, call, sentN, numRound, total, pad);
    BatchMade(calls, call, tsSent, since, pad);
  }

  lemma {:induction false} BatchLogged(log0: seq<MsgSent>, log: seq<MsgSent>, calls: seq<SendCall>, call: SendCall,
                                       sentN: nat, numRound: nat, total: nat, pad: nat)
    requires sentN <= total <= sentN + numRound <= |log0| == |log| && log0[..sentN] == RecordsOf(calls, 0)
    requires log[..sentN] == log0[..sentN] && call.accepted == total - sentN && call.len == HEADER + pad
    requires forall i :: sentN <= i < sentN + numRound ==> log[i] == MsgSent(i % UINT64, call.tsSent, HEADER + pad)
    ensures log[..total] == RecordsOf(calls + [call], 0)
  {
    RecordsOfMore(calls, call, 0);
    RecordsOfLength(calls, 0);
    var r := Records(sentN % UINT64, call.tsSent, call.len, call.accepted);
    forall i | 0 <= i < call.accepted ensures r[i] == log[sentN + i] {
      WrapAdd(sentN, i);
    }
    assert log[..total] == log[..sentN] + r;
  }

  lemma {:induction false} BatchMade(calls: seq<SendCall>, call: SendCall, clock: int, since: int, pad: nat)
    requires Made(calls, 0, since, clock, Terms(clock + 1, HEADER + pad, BATCH)) && since <= clock
    requires MadeCall(call, since, clock, Terms(clock + 1, HEADER + pad, BATCH)) && call.tsSent == clock
    ensures Made(calls + [call], 0, since, clock, Terms(clock + 1, HEADER + pad, BATCH))
  {
    if |calls| > 0 {
      assert MadeCall(calls[|calls| - 1], since, clock, Terms(clock + 1, HEADER + pad, BATCH));
    }
  }

  /** Writes the send time of a batch into its records. */
  method Stamp(log: array<MsgSent>, from: nat, n: nat, tsSent: int, ghost pad: nat)
    requires from + n <= log.Length && NumberedLog(log[..], pad)
    modifies log
    ensures NumberedLog(log[..], pad) && log[..from] == old(log[..from])
    ensures forall i :: from <= i < from + n ==> log[i] == MsgSent(i % UINT64, tsSent, HEADER + pad)
  {
    for i := 0 to n
      invariant NumberedLog(log[..], pad) && log[..from] == old(log[..from])
      invariant forall j :: from <= j < from + i ==> log[j] == MsgSent(j % UINT64, tsSent, HEADER + pad)
    {
      assert log[..][from + i] == log[from + i];
      log[from + i] := log[from + i].(tsSent := tsSent);
    }
  }
}
