/** From the paced sender to the result rows, across a network that may drop,
    duplicate and reorder packets. */
module EndToEnd {
  import opened Basics
  import opened Wire
  import opened RateSending
  import opened ResultMerge

  // ----- Choosing between run timestamps and kernel timestamps -----

  /** Index of the first message whose length differs from the first one's. */
  method FirstDifferentLen(msgs: seq<MsgSent>) returns (i: int)
    ensures i == -1 <==> forall j :: 0 <= j < |msgs| ==> msgs[j].len == msgs[0].len
    ensures i != -1 ==> 0 <= i < |msgs| && msgs[i].len != msgs[0].len
    ensures forall j :: 0 <= j < i ==> msgs[j].len == msgs[0].len
  {
    for k := 0 to |msgs|
      invariant forall j :: 0 <= j < k ==> msgs[j].len == msgs[0].len
    {
      if msgs[k].len != msgs[0].len {
        return k;
      }
    }
    return -1;
  }

  ghost predicate UniformLen(msgs: seq<MsgSent>) {
    forall j :: 0 <= j < |msgs| ==> msgs[j].len == msgs[0].len
  }

  ghost predicate KernelTimesUsable(sent: seq<MsgSent>, reader: Option<array<MsgSent>>) {
    reader.Some? && reader.value.Length == |sent| && UniformLen(sent)
  }

  /** selectMsgsSent: the kernel's records replace the run's own ones only if
      there are as many of them and all packets have one size. Either way the
      result has one entry per sent message, with the length that was sent. */
  method SelectMsgsSent(sent: seq<MsgSent>, reader: Option<array<MsgSent>>) returns (selected: seq<MsgSent>)
    modifies if reader.Some? then {reader.value} else {}
    ensures |selected| == |sent|
    ensures forall i :: 0 <= i < |sent| ==> selected[i].len == sent[i].len
    ensures !KernelTimesUsable(sent, reader) ==> selected == sent
    ensures KernelTimesUsable(sent, reader) ==>
      forall i :: 0 <= i < |sent| ==> selected[i] == old(reader.value[i]).(len := sent[i].len)
  {
    if reader.None? {
      return sent;
    }
    var tsMsgs := reader.value;
    if |sent| != tsMsgs.Length {
      return sent;
    }
    var different := FirstDifferentLen(sent);
    if different != -1 {
      return sent;
    }
    for i := 0 to tsMsgs.Length
      invariant forall j :: 0 <= j < i ==> tsMsgs[j] == old(tsMsgs[j]).(len := sent[0].len)
      invariant forall j :: i <= j < tsMsgs.Length ==> tsMsgs[j] == old(tsMsgs[j])
    {
      tsMsgs[i] := tsMsgs[i].(len := sent[0].len);
    }
    return tsMsgs[..];
  }

  // ----- The network -----

  /** One arrival: a copy of the datagram with the given index, and its time. */
  datatype Arrival = Arrival(packet: nat, at: int)

  ghost predicate CopiesOnly(arrivals: seq<Arrival>, wire: seq<Datagram>) {
    forall r :: 0 <= r < |arrivals| ==> arrivals[r].packet < |wire|
  }

  /** What the receiver records for an arriving datagram. */
  function Received(d: Datagram, at: int): MsgRcvd
    requires |d| >= HEADER
  {
    MsgRcvd(DecodeSeq(d), at, |d|)
  }

  ghost predicate ReceivedFrom(rcvd: seq<MsgRcvd>, arrivals: seq<Arrival>, wire: seq<Datagram>) {
    && |rcvd| == |arrivals| && CopiesOnly(arrivals, wire)
    && forall r :: 0 <= r < |rcvd| ==>
         |wire[arrivals[r].packet]| >= HEADER && rcvd[r] == Received(wire[arrivals[r].packet], arrivals[r].at)
  }

  /** Arrival times of the copies of packet i. */
  function ArrivalsOf(arrivals: seq<Arrival>, i: nat): seq<int> {
    if |arrivals| == 0 then []
    else (if arrivals[0].packet == i then [arrivals[0].at] else []) + ArrivalsOf(arrivals[1..], i)
  }

  /** The datagrams carry the numbers first, first + 1, ... */
  ghost predicate Numbered(wire: seq<Datagram>, first: nat) {
    forall j :: 0 <= j < |wire| ==> |wire[j]| >= HEADER && DecodeSeq(wire[j]) == first + j
  }

  /** What was received under number first + i are the arrivals of packet i. */
  lemma {:induction false} CopiesAreArrivals(rcvd: seq<MsgRcvd>, arrivals: seq<Arrival>, wire: seq<Datagram>,
                                             first: nat, i: nat)
    requires ReceivedFrom(rcvd, arrivals, wire) && Numbered(wire, first)
    ensures Copies(rcvd, first + i) == ArrivalsOf(arrivals, i)
  {
    if |rcvd| > 0 {
      CopiesAreArrivals(rcvd[1..], arrivals[1..], wire, first, i);
    }
  }

  /** What the row of packet i must say, given the record of its sending and the
      times its copies arrived. */
  ghost predicate FaithfulRow(r: MsgResult, m: MsgSent, d: Datagram, copies: seq<int>, i: nat) {
    && r.seqNo == i
    && r.len == |d|
    && r.tsSent == m.tsSent
    && (r.lost <==> copies == [])
    && (!r.lost ==> |r.tsRcvdDups| == |copies| - 1 && r.owd == r.tsRcvd - m.tsSent)
    && (r.lost ==> r.tsRcvd == ZERO_TIME && r.owd == 0 && r.tsRcvdDups == [])
    && multiset(Arrivals(r)) == multiset(copies) && Chronological(Arrivals(r))
  }

  /** One faithful row per packet on the wire. */
  ghost predicate Faithful(results: seq<MsgResult>, selected: seq<MsgSent>, wire: seq<Datagram>,
                           arrivals: seq<Arrival>) {
    && |results| == |selected| == |wire|
    && forall i :: 0 <= i < |wire| ==> FaithfulRow(results[i], selected[i], wire[i], ArrivalsOf(arrivals, i), i)
  }

  lemma {:induction false} RowIsFaithful(r: MsgResult, m: MsgSent, d: Datagram, copies: seq<int>, i: nat)
    requires IsRow(r, m, multiset(copies), i) && m.len == |d|
    ensures FaithfulRow(r, m, d, copies, i)
  {
    RowAccountsForCopies(r, m, copies, i);
  }

  lemma {:induction false} WireIsNumbered(msgs: seq<MsgSent>, wire: seq<Datagram>, first: nat)
    requires Mirrors(msgs, wire, first) && first + |wire| <= UINT64
    ensures Numbered(wire, first) && forall j :: 0 <= j < |wire| ==> |wire[j]| == msgs[j].len
  {
    forall j | 0 <= j < |wire| ensures |wire[j]| == msgs[j].len >= HEADER && DecodeSeq(wire[j]) == first + j {
      assert Describes(msgs[j], wire[j], first + j);
    }
  }

  ghost predicate SameLengths(selected: seq<MsgSent>, msgs: seq<MsgSent>) {
    |selected| == |msgs| && forall i :: 0 <= i < |msgs| ==> selected[i].len == msgs[i].len
  }

  /** End to end: a faithful sender log, any choice of timestamps that keeps the
      lengths, any network and the grouping of what arrived give one faithful
      row per packet. */
  lemma {:induction false} EndToEndFaithful(msgs: seq<MsgSent>, wire: seq<Datagram>, selected: seq<MsgSent>,
                                            rcvd: seq<MsgRcvd>, arrivals: seq<Arrival>, results: seq<MsgResult>)
    requires Mirrors(msgs, wire, 0) && |wire| <= UINT64 && SameLengths(selected, msgs)
    requires ReceivedFrom(rcvd, arrivals, wire)
    requires Grouped(results, selected, rcvd)
    ensures Faithful(results, selected, wire, arrivals)
  {
    Transported(msgs, wire, rcvd, arrivals);
    RowsAreFaithful(results, selected, wire, rcvd, arrivals);
  }

  /** Each sequence number was received exactly as often and when its packet arrived. */
  ghost predicate AllCopies(rcvd: seq<MsgRcvd>, arrivals: seq<Arrival>) {
    forall i: nat :: Copies(rcvd, i) == ArrivalsOf(arrivals, i)
  }

  lemma {:induction false} Transported(msgs: seq<MsgSent>, wire: seq<Datagram>, rcvd: seq<MsgRcvd>,
                                       arrivals: seq<Arrival>)
    requires Mirrors(msgs, wire, 0) && |wire| <= UINT64 && ReceivedFrom(rcvd, arrivals, wire)
    ensures AllCopies(rcvd, arrivals)
    ensures |msgs| == |wire| && forall i :: 0 <= i < |wire| ==> msgs[i].len == |wire[i]|
  {
    WireIsNumbered(msgs, wire, 0);
    NumberedArrives(wire, rcvd, arrivals);
  }

  lemma {:induction false} NumberedArrives(wire: seq<Datagram>, rcvd: seq<MsgRcvd>, arrivals: seq<Arrival>)
    requires ReceivedFrom(rcvd, arrivals, wire) && Numbered(wire, 0)
    ensures AllCopies(rcvd, arrivals)
  {
    forall i: nat ensures Copies(rcvd, i) == ArrivalsOf(arrivals, i) {
      CopiesAreArrivals(rcvd, arrivals, wire, 0, i);
    }
  }

  lemma {:induction false} RowsAreFaithful(results: seq<MsgResult>, selected: seq<MsgSent>, wire: seq<Datagram>,
                                           rcvd: seq<MsgRcvd>, arrivals: seq<Arrival>)
    requires |selected| == |wire| && forall i :: 0 <= i < |wire| ==> selected[i].len == |wire[i]|
    requires AllCopies(rcvd, arrivals) && Grouped(results, selected, rcvd)
    ensures Faithful(results, selected, wire, arrivals)
  {
    forall i | 0 <= i < |wire| ensures FaithfulRow(results[i], selected[i], wire[i], ArrivalsOf(arrivals, i), i) {
      RowIsFaithful(results[i], selected[i], wire[i], Copies(rcvd, i), i);
    }
  }

  // ----- Senders that were used before -----

  /** Some arrival whose packet has the least index. */
  lemma {:induction false} EarliestPacket(arrivals: seq<Arrival>) returns (r: nat)
    requires |arrivals| > 0
    ensures r < |arrivals| && forall q :: 0 <= q < |arrivals| ==> arrivals[r].packet <= arrivals[q].packet
  {
    r := 0;
    for q := 0 to |arrivals|
      invariant r < |arrivals| && forall p :: 0 <= p < q ==> arrivals[r].packet <= arrivals[p].packet
    {
      if arrivals[q].packet < arrivals[r].packet {
        r := q;
      }
    }
  }

  lemma {:induction false} ArrivedIsListed(arrivals: seq<Arrival>, r: nat)
    requires r < |arrivals|
    ensures ArrivalsOf(arrivals, arrivals[r].packet) != []
  {
    if r > 0 {
      ArrivedIsListed(arrivals[1..], r - 1);
    }
  }

  /** The row of the earliest packet that arrived says it was lost: its copies came
      in under a number that is higher by `first`. */
  lemma {:induction false} EarliestIsMissed(wire: seq<Datagram>, first: nat, rcvd: seq<MsgRcvd>,
                                            arrivals: seq<Arrival>, r: nat)
    requires ReceivedFrom(rcvd, arrivals, wire) && Numbered(wire, first) && first > 0
    requires r < |arrivals| && forall q :: 0 <= q < |arrivals| ==> arrivals[r].packet <= arrivals[q].packet
    ensures Copies(rcvd, arrivals[r].packet) == []
  {
    forall q | 0 <= q < |rcvd| ensures rcvd[q].seqNo != arrivals[r].packet {
      assert rcvd[q] == Received(wire[arrivals[q].packet], arrivals[q].at);
    }
    CopiesOfOthers(rcvd, arrivals[r].packet);
  }

  lemma {:induction false} NothingArrived(msgs: seq<MsgSent>, wire: seq<Datagram>, first: nat, selected: seq<MsgSent>,
                                          results: seq<MsgResult>)
    requires Mirrors(msgs, wire, first) && SameLengths(selected, msgs) && Grouped(results, selected, [])
    ensures Faithful(results, selected, wire, [])
  {
    forall i | 0 <= i < |wire| ensures FaithfulRow(results[i], selected[i], wire[i], ArrivalsOf([], i), i) {
      assert Describes(msgs[i], wire[i], first + i);
      assert IsRow(results[i], selected[i], multiset(Copies([], i)), i);
      RowIsFaithful(results[i], selected[i], wire[i], [], i);
    }
  }

  /** A run resets the log but not the sequence counter. The rows of a run that
      began at number `first` are faithful if and only if the sender was fresh or
      nothing arrived at all. */
  lemma {:induction false} FaithfulExactlyIfFresh(msgs: seq<MsgSent>, wire: seq<Datagram>, first: nat,
                                                  selected: seq<MsgSent>,
                                                  rcvd: seq<MsgRcvd>, arrivals: seq<Arrival>, results: seq<MsgResult>)
    requires Mirrors(msgs, wire, first) && first + |wire| <= UINT64 && SameLengths(selected, msgs)
    requires ReceivedFrom(rcvd, arrivals, wire)
    requires Grouped(results, selected, rcvd)
    ensures Faithful(results, selected, wire, arrivals) <==> first == 0 || arrivals == []
  {
    if first == 0 {
      EndToEndFaithful(msgs, wire, selected, rcvd, arrivals, results);
    } else if arrivals == [] {
      assert rcvd == [];
      NothingArrived(msgs, wire, first, selected, results);
    } else {
      WireIsNumbered(msgs, wire, first);
      var r := EarliestPacket(arrivals);
      var i := arrivals[r].packet;
      EarliestIsMissed(wire, first, rcvd, arrivals, r);
      ArrivedIsListed(arrivals, r);
      assert IsRow(results[i], selected[i], multiset(Copies(rcvd, i)), i);
      assert !FaithfulRow(results[i], selected[i], wire[i], ArrivalsOf(arrivals, i), i);
    }
  }

  /** Any delivery schedule: drops, duplicates and reorders at will. */
  method Deliver(wire: seq<Datagram>) returns (arrivals: seq<Arrival>, rcvd: array<MsgRcvd>)
    requires forall j :: 0 <= j < |wire| ==> |wire[j]| >= HEADER
    ensures fresh(rcvd) && ReceivedFrom(rcvd[..], arrivals, wire)
  {
    arrivals := [];
    var more: int := *;
    while more > 0
      invariant CopiesOnly(arrivals, wire)
      decreases more
    {
      var packet: int := *;
      var at: int := *;
      if 0 <= packet < |wire| {
        arrivals := arrivals + [Arrival(packet, at)];
      }
      more := more - 1;
    }
    rcvd := new MsgRcvd[|arrivals|];
    for r := 0 to |arrivals|
      invariant forall q :: 0 <= q < r ==> rcvd[q] == Received(wire[arrivals[q].packet], arrivals[q].at)
    {
      rcvd[r] := Received(wire[arrivals[r].packet], arrivals[r].at);
    }
  }

  /** Everything after the sender has returned. */
  method Collect(msgs: seq<MsgSent>, wire: seq<Datagram>, ghost first: nat, reader: Option<array<MsgSent>>)
    returns (results: seq<MsgResult>, selected: seq<MsgSent>, arrivals: seq<Arrival>)
    requires Mirrors(msgs, wire, first)
    modifies if reader.Some? then {reader.value} else {}
    ensures first + |wire| <= UINT64 ==> (Faithful(results, selected, wire, arrivals) <==> first == 0 || arrivals == [])
    ensures !KernelTimesUsable(msgs, reader) ==> selected == msgs
    ensures KernelTimesUsable(msgs, reader) ==>
              (&& |selected| == |msgs|
               && forall i :: 0 <= i < |selected| ==> selected[i] == old(reader.value[i]).(len := msgs[i].len))
  {
    forall j | 0 <= j < |wire| ensures |wire[j]| >= HEADER {
      assert Describes(msgs[j], wire[j], first + j);
    }
    selected := SelectMsgsSent(msgs, reader);
    var rcvd;
    arrivals, rcvd := Deliver(wire);
    ghost var received := rcvd[..];
    results := ProcessUDP(selected, rcvd);
    if first + |wire| <= UINT64 {
      FaithfulExactlyIfFresh(msgs, wire, first, selected, received, arrivals, results);
    }
  }

  /** The log is what the socket calls of the executed segments accepted, each
      stamped and made after the one before it. */
  ghost predicate Timed(msgs: seq<MsgSent>, runs: seq<Run>, params: seq<RateParams>, outer: Option<int>, first: nat,
                        since: int, until: int) {
    && msgs == RecordsOf(RunsCalls(runs), first) && Chained(RunsCalls(runs), since, until)
    && exists start :: since <= start && OnSchedule(runs, params, start, outer)
  }

  /** A write failed exactly if that is the error, and so did the setting of a
      deadline; encoding fails only if some payload is too long. */
  ghost predicate Blames(err: Option<Error>, failures: nat, failures0: nat, refusals: nat, refusals0: nat,
                         params: seq<RateParams>) {
    && failures == failures0 + (if err == Some(SocketError) then 1 else 0)
    && refusals == refusals0 + (if err == Some(DeadlineError) then 1 else 0)
    && (err == Some(EncodeError) ==> SomeTooLong(params))
  }

  /** The sender's part of a measurement. */
  method Send(sender: RateSender, host: Host, outer: Option<int>)
    returns (msgs: Option<seq<MsgSent>>, ghost runs: seq<Run>, err: Option<Error>)
    requires |sender.pool| > 0 && sender.seqNo < UINT64
    modifies sender, host
    ensures msgs.Some? ==> msgs.value == sender.msgs
    ensures msgs.None? <==> err.Some?
    ensures Blames(err, host.failures, old(host.failures), host.refusals, old(host.refusals), sender.params)
    ensures Mirrors(sender.msgs, sender.wire, old(sender.seqNo))
    ensures Timed(sender.msgs, runs, sender.params, outer, old(sender.seqNo), old(host.clock), host.clock)
  {
    msgs, err, runs := sender.RunAll(host, outer);
    assert Timed(sender.msgs, runs, sender.params, outer, old(sender.seqNo), old(host.clock), host.clock);
  }

  /** A whole UDP measurement. The rows are faithful to what left the sender and
      what the network delivered of it, exactly if the sender was fresh or nothing
      arrived. Their send times are the kernel's where those were usable, and else
      those the sender read for the socket call that accepted the packet, between
      the previous call and that one, with the length its segment asks for. */
  method MeasureUDP(sender: RateSender, host: Host, outer: Option<int>, reader: Option<array<MsgSent>>)
    returns (results: Option<seq<MsgResult>>, selected: seq<MsgSent>, arrivals: seq<Arrival>, ghost runs: seq<Run>,
             err: Option<Error>)
    requires |sender.pool| > 0 && sender.seqNo < UINT64
    modifies sender, host, if reader.Some? then {reader.value} else {}
    ensures results.Some? && old(sender.seqNo) + |sender.wire| <= UINT64 ==>
              (Faithful(results.value, selected, sender.wire, arrivals) <==> old(sender.seqNo) == 0 || arrivals == [])
    ensures results.Some? && !KernelTimesUsable(sender.msgs, reader) ==> selected == sender.msgs
    ensures results.Some? && KernelTimesUsable(sender.msgs, reader) ==>
              (&& |selected| == |sender.msgs|
               && forall i :: 0 <= i < |selected| ==> selected[i] == old(reader.value[i]).(len := sender.msgs[i].len))
    ensures Timed(sender.msgs, runs, sender.params, outer, old(sender.seqNo), old(host.clock), host.clock)
    ensures results.None? <==> err.Some?
    ensures Blames(err, host.failures, old(host.failures), host.refusals, old(host.refusals), sender.params)
  {
    ghost var first := sender.seqNo;
    var msgs;
    msgs, runs, err := Send(sender, host, outer);
    if msgs.None? {
      return None, [], [], runs, err;
    }
    var rows;
    rows, selected, arrivals := Collect(msgs.value, sender.wire, first, reader);
    results := Some(rows);
  }
}
