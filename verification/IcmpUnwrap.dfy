/** ICMP echo messages carry only 16 bits of the sender's counter. The receiver
    rebuilds the counter with a heuristic: once more than half of the sequence
    space has arrived since the last wrap, a number below 10000 means another
    wrap. This module proves when that is right, exactly. */
module IcmpUnwrap {
  import opened Basics
  import opened Wire

  const WRAP: nat := 0x1_0000
  const HALF: nat := 0x8000
  const LOW: nat := 10000

  type uint16 = x: int | 0 <= x < 0x1_0000

  /** The sequence number the sender puts into packet `seqNo`. */
  function WireSeq(seqNo: nat): uint16 { seqNo % WRAP }

  function WireSeqs(s: seq<nat>): (w: seq<uint16>)
    ensures |w| == |s|
  {
    seq(|s|, i requires 0 <= i < |s| => WireSeq(s[i]))
  }

  // ----- The unwrapping as a fold -----

  datatype Unwrapper = Unwrapper(baseSeq: nat, receivedSinceWrap: nat, wraps: nat)

  const Initial := Unwrapper(0, 0, 0)

  function Accept(u: Unwrapper, w: uint16): Unwrapper {
    var v := if u.receivedSinceWrap > HALF && w < LOW then Unwrapper(u.baseSeq + WRAP, 0, u.wraps + 1) else u;
    v.(receivedSinceWrap := v.receivedSinceWrap + 1)
  }

  function After(w: seq<uint16>): Unwrapper {
    if |w| == 0 then Initial else Accept(After(w[..|w| - 1]), w[|w| - 1])
  }

  /** The counters the receiver reports. */
  function Unwrapped(w: seq<uint16>): (s: seq<nat>)
    ensures |s| == |w|
  {
    if |w| == 0 then [] else Unwrapped(w[..|w| - 1]) + [After(w).baseSeq + w[|w| - 1]]
  }

  // ----- The receive loop -----

  /** What one read from the socket yields. */
  datatype Event =
    | ReadFailed(deadline: bool)
    | Unparsable
    | Message(icmpType: nat, isEcho: bool, dataOk: bool, punch: bool, echoID: nat, seqNo: uint16, at: int, n: nat)

  const ECHO_REPLY: nat := 0
  const ECHO: nat := 8

  datatype Receiver = Receiver(clientEchoID: nat, icmpType: nat)

  predicate Relevant(r: Receiver, e: Event) {
    && e.Message?
    && (e.icmpType == ECHO || e.icmpType == ECHO_REPLY) && e.icmpType == r.icmpType
    && e.isEcho && e.dataOk && !e.punch && e.echoID == r.clientEchoID
  }

  function Relevants(r: Receiver, events: seq<Event>): seq<Event> {
    if |events| == 0 then []
    else Relevants(r, events[..|events| - 1]) +
         (if Relevant(r, events[|events| - 1]) then [events[|events| - 1]] else [])
  }

  /** An echo of this measurement: of the right kind and with the own echo ID, its
      data readable and no hole punching. */
  predicate OwnEcho(r: Receiver, e: Event) {
    && r.icmpType in {0, 8}
    && e.Message? && e == Message(r.icmpType, true, true, false, r.clientEchoID, e.seqNo, e.at, e.n)
  }

  function OwnEchoes(r: Receiver, events: seq<Event>): nat {
    if |events| == 0 then 0
    else OwnEchoes(r, events[..|events| - 1]) + if OwnEcho(r, events[|events| - 1]) then 1 else 0
  }

  /** What is recorded are the own echoes, all of them and in order of arrival. */
  lemma {:induction false} RecordsOwnEchoes(r: Receiver, events: seq<Event>, k: nat)
    requires k <= |events|
    ensures |Relevants(r, events)| == OwnEchoes(r, events) && OwnEchoes(r, events[..k]) <= OwnEchoes(r, events)
    ensures k < |events| && OwnEcho(r, events[k]) ==>
              OwnEchoes(r, events[..k]) < |Relevants(r, events)| &&
              Relevants(r, events)[OwnEchoes(r, events[..k])] == events[k]
  {
    var n := |events| - 1;
    if k == |events| {
      assert events[..k] == events;
      if k > 0 {
        RecordsOwnEchoes(r, events[..n], n);
      }
    } else {
      RecordsOwnEchoes(r, events[..n], k);
      assert events[..n][..k] == events[..k];
    }
  }

  function SeqsOf(events: seq<Event>): (w: seq<uint16>)
    requires forall i :: 0 <= i < |events| ==> events[i].Message?
    ensures |w| == |events|
  {
    seq(|events|, i requires 0 <= i < |events| => events[i].seqNo)
  }

  /** msgs records exactly these messages, with the unwrapped counters. */
  ghost predicate Recorded(msgs: seq<MsgRcvd>, messages: seq<Event>) {
    && |msgs| == |messages|
    && (forall i :: 0 <= i < |messages| ==> messages[i].Message?)
    && forall i :: 0 <= i < |msgs| ==>
         msgs[i] == MsgRcvd(Unwrapped(SeqsOf(messages))[i], messages[i].at, messages[i].n)
  }

  predicate Stops(e: Event) { !e.Message? }

  /** Reads until the first event that is not a message. A read deadline ends
      the measurement normally, any other failure discards it. */
  method Receive(r: Receiver, events: seq<Event>) returns (result: Option<seq<MsgRcvd>>, read: nat)
    requires |events| > 0 && Stops(events[|events| - 1])
    ensures read < |events| && Stops(events[read]) && forall i :: 0 <= i < read ==> !Stops(events[i])
    ensures result.Some? <==> events[read] == ReadFailed(true)
    ensures result.Some? ==> Recorded(result.value, Relevants(r, events[..read]))
  {
    var rcvdMsgs: seq<MsgRcvd> := [];
    var receivedSinceWrap, baseSeq := 0, 0;
    ghost var u, messages := Initial, [];
    var k := 0;
    while true
      invariant 0 <= k < |events| && forall i :: 0 <= i < k ==> !Stops(events[i])
      invariant messages == Relevants(r, events[..k])
      invariant Recorded(rcvdMsgs, messages) && u == After(SeqsOf(messages))
      invariant baseSeq == u.baseSeq && receivedSinceWrap == u.receivedSinceWrap
      decreases |events| - k
    {
      var e := events[k];
      match e {
        case ReadFailed(deadline) =>
          return if deadline then Some(rcvdMsgs) else None, k;
        case Unparsable =>
          return None, k;
        case Message(_, _, _, _, _, _, _, _) =>
      }
      assert events[..k + 1][..k] == events[..k];
      if Relevant(r, e) {
        if receivedSinceWrap > HALF && e.seqNo < LOW {
          baseSeq := baseSeq + WRAP;
          receivedSinceWrap := 0;
        }
        receivedSinceWrap := receivedSinceWrap + 1;
        RecordOne(rcvdMsgs, messages, e, u);
        u, messages := Accept(u, e.seqNo), messages + [e];
        rcvdMsgs := rcvdMsgs + [MsgRcvd(baseSeq + e.seqNo, e.at, e.n)];
      }
      k := k + 1;
    }
  }

  lemma {:induction false} RecordOne(msgs: seq<MsgRcvd>, before: seq<Event>, e: Event, u: Unwrapper)
    requires Recorded(msgs, before) && e.Message? && u == After(SeqsOf(before))
    ensures Recorded(msgs + [MsgRcvd(Accept(u, e.seqNo).baseSeq + e.seqNo, e.at, e.n)], before + [e])
    ensures After(SeqsOf(before + [e])) == Accept(u, e.seqNo)
  {
    var w := SeqsOf(before + [e]);
    assert w[..|w| - 1] == SeqsOf(before);
    assert Unwrapped(w) == Unwrapped(SeqsOf(before)) + [Accept(u, e.seqNo).baseSeq + e.seqNo];
  }

  // ----- What holds for every stream -----

  /** Each wrap adds 2^16 and is paid for by at least 32769 accepted packets. */
  lemma {:induction false} BaseIsWraps(w: seq<uint16>)
    ensures After(w).baseSeq == After(w).wraps * WRAP
    ensures After(w).wraps * (HALF + 1) + After(w).receivedSinceWrap <= |w|
  {
    if |w| > 0 {
      BaseIsWraps(w[..|w| - 1]);
    }
  }

  /** A stray low number around the wrap-around point cannot cause a second wrap:
      until more than half of the space has arrived again, no packet at all does. */
  lemma {:induction false} NoDoubleWrap(w: seq<uint16>, more: seq<uint16>)
    requires After(w).receivedSinceWrap + |more| <= HALF + 1
    ensures After(w + more).wraps == After(w).wraps
    ensures After(w + more).receivedSinceWrap == After(w).receivedSinceWrap + |more|
  {
    if |more| == 0 {
      assert w + more == w;
    } else {
      NoDoubleWrap(w, more[..|more| - 1]);
      assert (w + more)[..|w + more| - 1] == w + more[..|more| - 1];
    }
  }

  lemma {:induction false} LatestCongruent(w: seq<uint16>)
    requires |w| > 0
    ensures Unwrapped(w)[|w| - 1] % WRAP == w[|w| - 1]
  {
    BaseIsWraps(w);
    assert Unwrapped(w)[|w| - 1] == After(w).wraps * WRAP + w[|w| - 1];
  }

  /** Whatever arrives, every reported counter has the received 16 bits. */
  lemma {:induction false} AlwaysCongruent(w: seq<uint16>, i: nat)
    requires i < |w|
    ensures Unwrapped(w)[i] % WRAP == w[i]
  {
    if i < |w| - 1 {
      AlwaysCongruent(w[..|w| - 1], i);
    } else {
      LatestCongruent(w);
    }
  }

  // ----- Exactly when the counter is recovered -----

  function Epoch(n: nat): nat { n / WRAP }

  lemma {:induction false} UnwrappedStep(s: seq<nat>)
    requires |s| > 0
    ensures var n := |s| - 1;
            var v := Accept(After(WireSeqs(s[..n])), WireSeq(s[n]));
            && After(WireSeqs(s)) == v
            && Unwrapped(WireSeqs(s))[..n] == Unwrapped(WireSeqs(s[..n]))
            && Unwrapped(WireSeqs(s))[n] == v.baseSeq + WireSeq(s[n])
  {
    assert WireSeqs(s)[..|s| - 1] == WireSeqs(s[..|s| - 1]);
  }

  /** Packet by packet, for packets of any order: the reported counter is right
      exactly if the number of wraps so far is the packet's epoch. */
  lemma {:induction false} RightExactlyInItsEpoch(s: seq<nat>, i: nat)
    requires i < |s|
    ensures Unwrapped(WireSeqs(s))[i] == s[i] <==> After(WireSeqs(s[..i + 1])).wraps == Epoch(s[i])
  {
    var n := |s| - 1;
    UnwrappedStep(s);
    if i < n {
      RightExactlyInItsEpoch(s[..n], i);
      assert s[..n][..i + 1] == s[..i + 1];
      assert Unwrapped(WireSeqs(s))[i] == Unwrapped(WireSeqs(s))[..n][i];
    } else {
      assert s[..i + 1] == s;
      BaseIsWraps(WireSeqs(s));
    }
  }

  function ArrivedIn(s: seq<nat>, epoch: nat): nat {
    if |s| == 0 then 0 else ArrivedIn(s[..|s| - 1], epoch) + (if Epoch(s[|s| - 1]) == epoch then 1 else 0)
  }

  /** What makes the receiver wrap, in terms of what has arrived. */
  predicate LooksWrapped(arrived: nat, w: uint16) { arrived > HALF && w < LOW }

  /** Packet i fits what the receiver can see: it stays in the epoch of its
      predecessor without looking like a wrap, or opens the next epoch and looks
      like one. */
  ghost predicate Visible(s: seq<nat>, i: nat)
    requires 0 < i < |s|
  {
    var wrap := LooksWrapped(ArrivedIn(s[..i], Epoch(s[i - 1])), WireSeq(s[i]));
    Epoch(s[i]) == Epoch(s[i - 1]) + if wrap then 1 else 0
  }

  ghost predicate Recoverable(s: seq<nat>) {
    && (|s| > 0 ==> Epoch(s[0]) == 0)
    && forall i :: 0 < i < |s| ==> Visible(s, i)
  }

  lemma {:induction false} RecoverablePrefix(s: seq<nat>)
    requires |s| > 1
    ensures Recoverable(s) <==> Recoverable(s[..|s| - 1]) && Visible(s, |s| - 1)
  {
    var p := s[..|s| - 1];
    forall i | 0 < i < |p| ensures Visible(p, i) <==> Visible(s, i) {
      assert p[..i] == s[..i];
    }
  }

  /** Epochs of a recoverable stream never fall, so a later one is empty so far. */
  lemma {:induction false} NoneInLaterEpoch(s: seq<nat>, epoch: nat)
    requires Recoverable(s) && (|s| > 0 ==> Epoch(s[|s| - 1]) < epoch)
    ensures ArrivedIn(s, epoch) == 0
  {
    if |s| > 1 {
      RecoverablePrefix(s);
      NoneInLaterEpoch(s[..|s| - 1], epoch);
    } else if |s| == 1 {
      assert s[..0] == [];
    }
  }

  /** The receiver's state tracks the true epoch of the latest packet. */
  ghost predicate InStep(u: Unwrapper, s: seq<nat>) {
    if |s| == 0 then u == Initial
    else u.baseSeq == Epoch(s[|s| - 1]) * WRAP && u.receivedSinceWrap == ArrivedIn(s, Epoch(s[|s| - 1]))
  }

  /** One more packet: the receiver stays in step exactly if it is visible. */
  lemma {:induction false} AcceptInStep(u: Unwrapper, s: seq<nat>)
    requires |s| > 1 && Recoverable(s[..|s| - 1]) && InStep(u, s[..|s| - 1])
    ensures var n := |s| - 1; var v := Accept(u, WireSeq(s[n]));
            && (v.baseSeq + WireSeq(s[n]) == s[n] <==> Visible(s, n))
            && (Visible(s, n) ==> InStep(v, s))
  {
    var n := |s| - 1;
    if Epoch(s[n]) > Epoch(s[n - 1]) {
      NoneInLaterEpoch(s[..n], Epoch(s[n]));
    }
  }

  /** For streams of any length with losses, duplicates and reordering: the receiver
      reports the sender's own counters if and only if every packet is visible. */
  lemma {:induction false} UnwrapsExactlyIfRecoverable(s: seq<nat>)
    ensures Unwrapped(WireSeqs(s)) == s <==> Recoverable(s)
    ensures Recoverable(s) ==> InStep(After(WireSeqs(s)), s)
  {
    if |s| == 1 {
      assert WireSeqs(s)[..0] == [] && s[..0] == [];
    } else if |s| > 1 {
      var n := |s| - 1;
      UnwrapsExactlyIfRecoverable(s[..n]);
      RecoverablePrefix(s);
      UnwrappedStep(s);
      SamePrefixSameLast(Unwrapped(WireSeqs(s)), s);
      if Recoverable(s[..n]) {
        AcceptInStep(After(WireSeqs(s[..n])), s);
      }
    }
  }

  lemma {:induction false} SamePrefixSameLast(a: seq<nat>, b: seq<nat>)
    requires |a| == |b| > 0
    ensures a == b <==> a[..|a| - 1] == b[..|b| - 1] && a[|a| - 1] == b[|b| - 1]
  {
    assert a == a[..|a| - 1] + [a[|a| - 1]] && b == b[..|b| - 1] + [b[|b| - 1]];
  }

  // ----- Streams in order, and how late packets may be -----

  /** Epochs advance one by one, each after more than half of the previous one
      arrived and before 10000 numbers of the new one were lost. */
  ghost predicate EpochsVisible(s: seq<nat>) {
    && (|s| > 0 ==> Epoch(s[0]) == 0)
    && forall i :: 0 < i < |s| ==> Epoch(s[i]) == Epoch(s[i - 1]) || VisibleWrap(s, i)
  }

  ghost predicate VisibleWrap(s: seq<nat>, i: nat)
    requires 0 < i < |s|
  {
    Epoch(s[i]) == Epoch(s[i - 1]) + 1 && LooksWrapped(ArrivedIn(s[..i], Epoch(s[i - 1])), WireSeq(s[i]))
  }

  /** By how much the number of earlier arrivals of its epoch may exceed a packet's
      own number. */
  const SLACK: nat := HALF - LOW + 1

  ghost predicate Punctual(s: seq<nat>) {
    forall i :: 0 < i < |s| ==> ArrivedIn(s[..i], Epoch(s[i])) <= WireSeq(s[i]) + SLACK
  }

  /** Reordering and duplicates within an epoch do no harm as long as no packet is
      late by more than SLACK arrivals. */
  lemma {:induction false} PunctualIsRecovered(s: seq<nat>)
    requires Punctual(s)
    ensures Unwrapped(WireSeqs(s)) == s <==> EpochsVisible(s)
  {
    UnwrapsExactlyIfRecoverable(s);
    forall i | 0 < i < |s| ensures Visible(s, i) <==> Epoch(s[i]) == Epoch(s[i - 1]) || VisibleWrap(s, i) {
      assert ArrivedIn(s[..i], Epoch(s[i])) <= WireSeq(s[i]) + SLACK;
    }
  }

  /** The slack cannot be any larger: after numbers 0 to 32768, a second copy of
      number 9999 is late by one more and is taken for a wrap. */
  lemma {:induction false} SlackIsTight()
    ensures var s := Upto(HALF + 1) + [LOW - 1];
            && EpochsVisible(s) && Unwrapped(WireSeqs(s)) != s
            && ArrivedIn(s[..HALF + 1], 0) == WireSeq(LOW - 1) + SLACK + 1
  {
    var s := Upto(HALF + 1) + [LOW - 1];
    assert s[..HALF + 1] == Upto(HALF + 1);
    UptoArrives(HALF + 1);
    UnwrapsExactlyIfRecoverable(s);
    assert !Visible(s, HALF + 1);
  }

  lemma {:induction false} UptoArrives(n: nat)
    requires n <= WRAP
    ensures ArrivedIn(Upto(n), 0) == n
  {
    if n > 0 {
      UptoArrives(n - 1);
      assert Upto(n)[..n - 1] == Upto(n - 1);
    }
  }

  ghost predicate Increasing(s: seq<nat>) {
    forall i, j :: 0 <= i < j < |s| ==> s[i] < s[j]
  }

  /** Without duplicates and reordering, the arrivals of an epoch are at most as
      many as the position of the latest of them. */
  lemma {:induction false} ArrivalsBelowPosition(s: seq<nat>)
    requires Increasing(s) && |s| > 0
    ensures ArrivedIn(s, Epoch(s[|s| - 1])) <= WireSeq(s[|s| - 1]) + 1
  {
    var n := |s| - 1;
    if n > 0 {
      ArrivalsBelowPosition(s[..n]);
      if Epoch(s[n]) != Epoch(s[n - 1]) {
        NoneBeyond(s[..n], Epoch(s[n]));
      }
    } else {
      assert s[..0] == [];
    }
  }

  lemma {:induction false} NoneBeyond(s: seq<nat>, epoch: nat)
    requires Increasing(s) && (|s| > 0 ==> Epoch(s[|s| - 1]) < epoch)
    ensures ArrivedIn(s, epoch) == 0
  {
    if |s| > 1 {
      NoneBeyond(s[..|s| - 1], epoch);
    } else if |s| == 1 {
      assert s[..0] == [];
    }
  }

  /** In-order delivery without duplicates, losses allowed: recovered if and only if
      every epoch change is visible. */
  lemma {:induction false} InOrderIsRecovered(s: seq<nat>)
    requires Increasing(s)
    ensures Unwrapped(WireSeqs(s)) == s <==> EpochsVisible(s)
  {
    forall i | 0 < i < |s| ensures ArrivedIn(s[..i], Epoch(s[i])) <= WireSeq(s[i]) + SLACK {
      ArrivalsBelowPosition(s[..i]);
      if Epoch(s[i]) != Epoch(s[i - 1]) {
        NoneBeyond(s[..i], Epoch(s[i]));
      }
    }
    PunctualIsRecovered(s);
  }
}
