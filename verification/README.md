# NetScalpel in Dafny

NetScalpel sends timed packet schedules between a client and a server, collects what was sent and received, and
writes one row per packet. This project models the stateful parts of that pipeline and proves what they guarantee
for every clock, socket, network, interleaving and input. `dafny verify dfyconfig.toml` checks everything.

| file | models |
|---|---|
| `Pacing.dfy`, `RateSender.dfy`, `BurstSender.dfy` | the paced multi-segment sender and the burst sender, against an adversarial clock, context and socket |
| `WriteDeadline.dfy` | the cancellation callback of a segment as a concurrent process |
| `Wire.dfy`, `ResultMerge.dfy`, `EndToEnd.dfy` | datagrams, the sort and two-pointer merge, and the whole UDP measurement over a dropping, duplicating, reordering network |
| `Decimal.dfy`, `Timestamps.dfy`, `ResultRows.dfy`, `StrictReading.dfy` | the printer of result rows and the independent strict reader |
| `ServerProtocol.dfy`, `ServerInvariant.dfy`, `ServerGuarantees.dfy` | the server's two maps and capacity-one channels under every interleaving |
| `IcmpUnwrap.dfy` | rebuilding an unbounded counter from 16 bits |
| `QuicTracer.dfy` | tracer callbacks racing with the end of a QUIC measurement |
| `Executor.dfy`, `Invocation.dfy` | launching clients, and the status machine that ends in the final manifest |
| `Schedule.dfy` | reconfiguration intervals and the procedures that fit test groups between them |
| `CrossingScan.dfy` | one-pass against nested boundary scan of the pacing benchmark |
| `ParamParser.dfy`, `ParamPreparation.dfy` | parameter strings and their preparation |

Times and durations are nanoseconds in unbounded integers. Sequence counters and the product in the pacing goal
wrap at 2^64 explicitly. The clock, the context and the socket are methods of `Host` whose bodies choose
arbitrarily within their contracts; concurrent protocols are step relations, and a claim about them is about every
run of the relation. In the server protocol an ID is *quiet* if no retrieval of it can still remove its map entry and
no test of it is unfinished, and it is used *safely* if every accepted registration of it finds it new or quiet.
Statements about an ID assume this of that ID alone; duplicate registrations that the server refuses, and anything
done under other IDs, are part of every run.

## Where the code does less than one might expect

- A tick one interval after a served one asks for at most five packets exactly if the rate is at most 5·10^9
  packets per second (`Pacing.FiveBoundExactlyUpToLimit`); the 64-bit goal is exact exactly if the product fits
  (`Pacing.GoalExactIffProductFits`).
- `RateSender.Run` resets the message log but not the sequence counter. The rows of a run are right exactly if the
  sender was fresh or nothing arrived (`EndToEnd.FaithfulExactlyIfFresh`).
- An ID may be registered again once its result was retrieved. The new test keeps its channel and its cancel entry in
  every continuation that does not register the ID again too early, exactly if the ID is quiet by then
  (`ServerGuarantees.ReuseSafeExactlyWhenQuiet`). Otherwise an old retrieval can remove the new channel
  (`ServerGuarantees.ReuseLosesResult`), the old test can cancel the new one (`ServerGuarantees.ReuseCancelsNewTest`),
  and the old test can lose its own cancel entry (`ServerGuarantees.HastyReuseTakesCancel`).
- IDs are isolated from each other as long as the process lives. Careless reuse of one ID can end the process by a send
  on a closed channel (`ServerGuarantees.ReusePanics`), which no test of a safely used ID ever does.
- A second retriever of a command's result can wait until shutdown, because that channel is never closed
  (`ServerGuarantees.ReachSpent`, `ServerGuarantees.CommandWaiterStarves`).
- The ICMP receiver is right about a packet exactly if it has counted as many wraps as the packet has epochs behind it
  (`IcmpUnwrap.RightExactlyInItsEpoch`), so a packet that arrives after the first one of the next epoch is always wrong
  or makes that one wrong. Within an epoch, reordering and duplicates are harmless up to a lateness of 22769 arrivals
  (`IcmpUnwrap.PunctualIsRecovered`) and no further (`IcmpUnwrap.SlackIsTight`).
- A QUIC packet can be dropped although the buffer has room when quit is closed, because the two selects of the
  callback are not atomic (`QuicTracer.DropWithRoomInTheBuffer`). That a drop of a packet takes quit closed on a full
  buffer is certain exactly if quit was closed already when its callback arrived
  (`QuicTracer.DropTakesFullQuitExactly`). In any case the buffer was full at the first attempt.
- The strict reader rejects a printed table exactly if a received copy carries the zero time, which the printer
  leaves blank (`ResultRows.ReaderAgreesWithPrinter`).
- `NextRI` rounds before it searches, so an interval start at most half a second ahead is skipped, although the
  comment speaks of the interval that follows (`Schedule.SkipsNearRI`). Procedures panic exactly for reference times
  less than two seconds before their interval start (`Schedule.PanicExactly`), which no interval start is.
- If results were gathered while a client still runs, and gathered again, a record could end up complete in spite of
  a recorded error (`Invocation.EarlyGatherForgets`). The finishing procedure waits first, so this never happens.
- A cancellation after the finishing procedure has checked for it leads to nil with a cancelled manifest, and one
  after the seal to nil with a complete one (`Invocation.LateCancellations`).
- Preparing parameters is idempotent except for a declared `direction` left at an unacceptable default
  (`ParamPreparation.IdempotentExactly`); registration refuses such declarations.

## Model

| member | source | states |
|---|---|---|
| `Pacing.GoalExactIffProductFits` | pkg/udp.go:472-481 | the 64-bit goal never exceeds the ideal demand and equals it exactly if elapsed·pps stays below 2^64 |
| `Pacing.TickAsksForAtMostFive` | pkg/udp.go:463-481 | a tick at most one interval after a fully served reading raises the goal by at most five, in every phase and for every missed count |
| `Pacing.NothingDueAtEntry` | pkg/udp.go:550-560 | at the entry reading nothing is due, however late the entry |
| `Pacing.IntervalIsLongest` | pkg/udp.go:463-470 | the ticker interval is the longest one, up to a millisecond, in which at most five packets become due, and a nanosecond if there is none |
| `Pacing.FiveBoundExactlyUpToLimit` | pkg/udp.go:463-481 | the segment goal rises by at most five between readings one interval apart, in every segment whose product fits and for every phase and missed count, if and only if pps is at most 5·10^9 |
| `Pacing.SixAtOnce` | pkg/udp.go:463-481 | above that rate there is a phase within the first second at which six packets become due in one nanosecond |
| `Pacing.SegmentCap` | pkg/udp.go:589-606 | over all tick sequences a segment sends at most its whole-packet demand minus what was missed before entry |
| `Pacing.TotalDependsOnlyOnLastReading` | pkg/udp.go:591-605 | with complete writes the total after a tick is the whole-packet demand of the window up to that tick's reading minus the demand before entry, whatever came before; a tick at the end reaches the cap |
| `Pacing.SameReadingSameTotal` | pkg/udp.go:591-605 | two different tick histories that end at the same reading have sent the same total |
| `RateSending.RateSender.FillBatch` | pkg/udp.go:630-646 | a batch is encoded and logged completely, or up to exactly the first buffer that is too small |
| `RateSending.EqualBuffersFailFirst` | pkg/udp.go:439-461 | with buffers of one capacity an Encode failure happens before any entry of the batch is logged |
| `RateSending.MirrorsExtend` | pkg/udp.go:648-671 | accepting any prefix of a filled batch keeps log and wire equal and dense |
| `RateSending.RateSender.Transmit` | pkg/udp.go:652-671 | after a full, partial, empty, timed-out or failed write the log holds exactly the accepted datagrams and the counter moved by that many; an error is reported exactly for a failure other than a timeout |
| `RateSending.RateSender.SendRound` | pkg/udp.go:614-675 | at most the requested count is sent; log, wire and counter agree under every mix of outcomes; every call is stamped with a time read after the previous call and before itself, made before the deadline, and hands over datagrams of the size asked for, whose records carry that stamp and size; less is sent only after expiry, a short write or an error; an error tells which operation failed; an Encode failure leaves only unsent entries of its own batch, and none if all capacities are equal |
| `RateSending.RateSender.RunSegment` | pkg/udp.go:555-612 | a live segment runs in its nominal window, never ahead of the goal of each reading, and calls the socket only before its end and the outer deadline, with datagrams of its own payload size; with full writes every tick is served in full; it ends without an error only when its context does, having served every tick before that unless a reading came too late, and fails to encode only if its payload exceeds a buffer |
| `RateSending.RateSender.Visit` | pkg/udp.go:526-543 | the next boundary is the nominal prefix sum whatever the segment did, and no segment with time left is skipped |
| `RateSending.RateSender.RunSegments` | pkg/udp.go:524-545 | exactly the recorded segments, in order and each in its nominal window, account for all packets and socket calls; without expiry or error none is skipped before its window is over; an error tells which operation failed |
| `RateSending.RateSender.GetDuration` | pkg/udp.go:409-415 | the planned duration is the last boundary |
| `RateSending.RateSender.RunAll` | pkg/udp.go:439-461 | a run returns a log that mirrors the wire from the starting counter on and is exactly what its socket calls accepted, each packet with the stamp and size of its call and each stamp read after the previous call; the calls are those of the segments, which follow the schedule; no segment is skipped unless expired or late, and at most the planned total is sent |
| `RateSending.RecordAt` | pkg/udp.go:625-671 | the records of a socket call carry its stamp and size and are numbered on from those of the calls before it |
| `RateSending.SegmentRecord` | pkg/udp.go:602-671 | every packet of an executed segment has the size its parameters ask for and a send time inside its window |
| `RateSending.RunTotalBound` | pkg/udp.go:524-612 | a run sends at most the sum of the per-segment floors: neither debt nor credit crosses a boundary |
| `BurstSending.BurstRun` | pkg/udp.go:213-276 | the returned records mirror exactly the accepted prefix, each with the stamp of its batch, read after the previous batch, and the padded size; nothing is returned exactly after an Encode failure or a broken connection; the burst is incomplete only after expiry or a cut-short batch |
| `BurstSending.EncodeAll` | pkg/udp.go:213-238 | all datagrams are numbered and sized as logged, and encoding fails exactly if the padding exceeds the buffer |
| `WriteDeadline.StepKeepsInv` | pkg/udp.go:561-579 | every step of sender or callback keeps: callbacks of left segments are settled, and the deadline is the one that is due |
| `WriteDeadline.NoStaleDeadline` | pkg/udp.go:569-579 | in every interleaving the deadline is cleared between segments, where every callback was stopped before it ran or has finished; inside a segment it is the nominal end until the callback of this segment has written, and then the wake-up |
| `WriteDeadline.NoLateWrite` | pkg/udp.go:569-579 | once a segment is left, no callback registered before ever writes the deadline again |
| `WriteDeadline.JoinCannotBlock` | pkg/udp.go:574-578 | while the sender waits for the callback, the wait is over or the callback can go on |
| `WriteDeadline.WithoutJoinStaleDeadline` | pkg/udp.go:567-578 | a concrete run without the join in which segment 0 overwrites the deadline of segment 1 |
| `Wire.BigEndianRoundTrip` | pkg/common.go:63-81 | the header bytes read back as the value modulo 256^width |
| `Wire.BigEndianAt` | pkg/common.go:63-81 | the most significant byte comes first |
| `Wire.EncodeDecode` | pkg/common.go:63-110 | a datagram is eight bytes longer than its padding and decodes to its sequence number |
| `Wire.CopyPadding` | pkg/common.go:83-94 | the slice becomes a cyclic window of the pool and nothing around it changes |
| `Wire.WindowAt` | pkg/common.go:83-94 | byte i of a window is the pool's byte at offset + i modulo its size |
| `Wire.Encode` | pkg/common.go:63-81 | a buffer that is too short is refused and unchanged; otherwise exactly the datagram is written |
| `ResultMerge.SortArrivals` | pkg/results.go:27-35 | the array becomes a permutation of itself ordered by sequence number and arrival time |
| `ResultMerge.TakeRow` | pkg/results.go:40-67 | one turn of the pass yields the specified row and consumes exactly its copies; the case that falls through both branches is unreachable |
| `ResultMerge.MergeSorted` | pkg/results.go:37-71 | the two-pointer pass equals grouping by sequence number |
| `ResultMerge.ProcessUDP` | pkg/results.go:27-71 | the result is the grouping of the received multiset: earliest arrival first, other copies in order, lost exactly without copies |
| `ResultMerge.RowUnique` | pkg/results.go:42-66 | the grouping specification determines a row completely |
| `ResultMerge.OrderIndependent` | pkg/results.go:27-35 | the rows are the same for every order of the received packets |
| `ResultMerge.Conservation` | pkg/results.go:37-71 | arrivals of sent packets equal the sum of one plus duplicates over the rows that are not lost |
| `EndToEnd.FirstDifferentLen` | pkg/txtsreader.go:218-225 | -1 exactly if all lengths are equal, otherwise the first differing index |
| `EndToEnd.SelectMsgsSent` | pkg/txtsreader.go:184-216 | kernel records are used exactly if there are as many and all lengths are equal; either way each entry keeps the length that was sent |
| `EndToEnd.EndToEndFaithful` | pkg/results.go:27-71 | for any faithful log, timestamp selection and network: one row per packet, lost exactly without copies, duplicates are copies minus one, length as on the wire, send time as selected and delay measured from it |
| `EndToEnd.MeasureUDP` | pkg/udp.go:439-461 | the composed sender, selection, network and merge yield such rows exactly if the sender was fresh or nothing arrived; send times are the kernel's where those were usable, and otherwise those read for the socket call that accepted the packet, after the previous call and before that one; without rows the error says what failed |
| `EndToEnd.FaithfulExactlyIfFresh` | pkg/udp.go:439-461 | for every network, the rows of a run that began at any sequence number are faithful if and only if that number is zero or nothing arrived |
| `Decimal.FormatParse` | pkg/results.go:99-107 | printed counts parse back to themselves |
| `Decimal.ParseIntExactly` | e2e/verify.py:69-79 | a text is read as an integer exactly if it is digits with that value, behind at most one sign |
| `Decimal.FormatIsCanonical` | pkg/results.go:99-107 | printed counts have no leading zeros |
| `Decimal.TextOrderIsNumericOrder` | e2e/verify.py:42-47 | on numerals of one width text order is numeric order |
| `Timestamps.TrimThenPad` | pkg/results.go:90-101 | padding with zeros undoes the trimming of a fraction |
| `Timestamps.LeftmostFraction` | e2e/verify.py:45-46 | in every text the search yields all digits after the leftmost match of the pattern, and nothing exactly without a match |
| `Timestamps.FractionAfterMark` | e2e/verify.py:45-46 | behind a time of day the search finds exactly the digits after a point or a comma |
| `Timestamps.FractionOfText` | e2e/verify.py:45-46 | the leftmost match in a printed timestamp is exactly its fraction, or none if there is none |
| `Timestamps.KeyOfStamp` | e2e/verify.py:42-47 | the key of a printed instant is its microseconds and its last three nanosecond digits |
| `Timestamps.KeyOrderIsTimeOrder` | e2e/verify.py:42-47 | comparing keys is comparing nanoseconds, in both directions |
| `ResultRows.GenerateUDPResultRows` | pkg/results.go:73-118 | the rows are the rectangular table of header and padded duplicate lists |
| `ResultRows.ParseRows` | e2e/verify.py:50-116 | the loop over the lines computes the tally whose complaints and rows the members of StrictReading characterize by cells |
| `StrictReading.AcceptedExactly` | e2e/verify.py:50-116 | for every table the reader is silent exactly if the header is right, every nonempty line has its width, valid values, a fate, exactly the first dup_count extras filled, no copies when lost, arrival and delay exactly when not, and comparable, chronological arrivals, and the columns are as many as the largest dup_count |
| `StrictReading.ComplaintsExactly` | e2e/verify.py:56-116 | in a table with a right header exactly the deserved complaints are raised, each with its line |
| `StrictReading.ComplaintExactlyIfDeserved` | e2e/verify.py:64-109 | which cells deserve which complaint, for each kind |
| `StrictReading.RowsExactly` | e2e/verify.py:67-110 | the rows returned are those of the kept lines in order and say what the cells say; a wrong header yields one complaint and no rows |
| `StrictReading.NoOrderProblemExactly` | e2e/verify.py:94-103 | no order complaint exactly if all neighbours can be compared and none is after the next |
| `StrictReading.OrderProblemAt` | e2e/verify.py:94-103 | otherwise the first neighbours out of step decide whether the zones or the order are complained about |
| `ResultRows.KeysInOrder` | e2e/verify.py:94-99 | keys of chronological arrivals raise neither an order nor a zone complaint |
| `ResultRows.RowReads` | e2e/verify.py:64-109 | a printed row draws a complaint exactly if one of its arrivals is the zero time, and otherwise reads as printed |
| `ResultRows.TableRead` | e2e/verify.py:50-116 | a printed table is accepted exactly if no arrival is the zero time, and then yields one row per result with the printed values |
| `ResultRows.ReaderAgreesWithPrinter` | e2e/verify.py:50-116 | after merging any packets, the reader is silent exactly if no copy of a sent packet has the zero time, and returns for each sent packet its number, size, send time and fate, with the time and delay of its first copy |
| `ResultRows.MergePrintRead` | pkg/results.go:27-118 | the same for the three programs executed in a row |
| `ServerInvariant.StepKeepsNamed` | pkg/server.go:146-262 | in every run, map entries, goroutines, retrievals and aborts refer only to tests of their own ID |
| `ServerInvariant.OtherTestStepFrames` | pkg/server.go:206-245 | a step of a test changes nothing about any other ID, except that contexts may end |
| `ServerInvariant.OtherStepFrames` | pkg/server.go:247-262 | nor does a registration, retrieval or abort under another ID, a refused registration or a shutdown |
| `ServerInvariant.StepKeepsInv` | pkg/server.go:146-262 | every critical section and channel operation keeps the accounting of tests, channels, map entries and retrievals of an ID, if it registers that ID only when new or quiet |
| `ServerGuarantees.FreshRunIsSafe` | pkg/server.go:156-164 | an ID that is never accepted twice is used safely, whatever duplicates are refused |
| `ServerGuarantees.TestsNeverBlock` | pkg/server.go:206-222 | a test of a safely used ID can always take its next step, so it never blocks, never meets a closed channel, and sends exactly one result, whatever happens under other IDs |
| `ServerGuarantees.AtMostOneSuccess` | pkg/server.go:535-588 | at most one retrieval per test gets the result |
| `ServerGuarantees.AtMostOneSuccessPerId` | pkg/server.go:535-588 | at most one retrieval per ID succeeds if no ID is used again |
| `ServerGuarantees.WaiterNeverStuck` | pkg/server.go:535-588 | a waiting retriever can receive or its test can go on, if and only if it does not wait for a command whose result was taken |
| `ServerGuarantees.CommandWaiterStarves` | pkg/server.go:604-704 | in that excluded case the receive stays impossible for the rest of the run |
| `ServerGuarantees.ReachSpent` | pkg/server.go:604-704 | the excluded case is reached by a run with one command and two retrievers |
| `ServerGuarantees.MapsTrackTests` | pkg/server.go:96-102 | a safely used ID is in resultC exactly while a test of it is not retrieved, and in testCancel exactly while a test of it is unfinished |
| `ServerGuarantees.MapsDrain` | pkg/server.go:226-245 | both maps are empty once all tests are done and retrieved |
| `ServerGuarantees.CancelledExactlyIf` | pkg/server.go:226-262 | the context of a test of a safely used ID has ended if and only if its goroutine let go of it, the server was shut down, or an Abort called its cancel function; such an Abort was made under the own ID and found the test |
| `ServerGuarantees.AbortCancels` | pkg/server.go:247-262 | in every run, a test whose cancel function an Abort has called is cancelled from then on |
| `ServerGuarantees.AbortReaches` | pkg/server.go:247-262 | an Abort that looks up the ID of an unfinished test has its cancel function in hand and can call it until the test is cancelled |
| `ServerGuarantees.TakenIsHandedOver` | pkg/server.go:535-588 | in every run a result is taken from a channel exactly if some retrieval got it |
| `ServerGuarantees.RequestFindsTest` | pkg/server.go:535-548 | a request under a safely used ID waits for the test whose result was not retrieved, and is told that there is none exactly if all were |
| `ServerGuarantees.TooLateHasWinner` | pkg/server.go:549-588 | a retrieval is told that the result was retrieved already only if another one got it |
| `ServerGuarantees.ShutdownIsTrue` | pkg/server.go:549-588 | a retrieval is told of a shutdown only if there was one |
| `ServerGuarantees.WaiterCanLeave` | pkg/server.go:563-578 | after a shutdown every waiting retrieval can leave |
| `ServerGuarantees.ShutdownCancelsAll` | pkg/server.go:146-154 | after a shutdown every test context has ended, also those registered later |
| `ServerGuarantees.AbortAfterFinishIsNoOp` | pkg/server.go:226-262 | after finishTest, Abort never finds the test, and finds nothing at all unless its ID is in use again |
| `ServerGuarantees.ReuseSafeExactlyWhenQuiet` | pkg/server.go:156-164 | in any state reached while the ID was used safely, a newly accepted test of it keeps its channel until retrieval and its cancel entry until it finishes, in every continuation whose later accepted registrations of that ID find it quiet, if and only if the ID is quiet now |
| `ServerGuarantees.ReuseLosesResult` | pkg/server.go:547-554 | a concrete run in which an old retrieval removes the new test's channel, so that it can never deliver |
| `ServerGuarantees.ReuseCancelsNewTest` | pkg/server.go:226-234 | a concrete run without Abort and shutdown in which the old test's finishTest takes and calls the new test's cancel function |
| `ServerGuarantees.HastyReuseTakesCancel` | pkg/server.go:156-164 | a concrete run in which a test whose own registration was safe loses its cancel entry to a later hasty one |
| `ServerGuarantees.ReusePanics` | pkg/server.go:206-212 | a concrete run with careless reuse in which a test is about to send on a closed channel |
| `IcmpUnwrap.Receive` | pkg/icmp.go:48-114 | reads until the first failure and records exactly the relevant messages with their unwrapped counters; any failure but a deadline discards them |
| `IcmpUnwrap.RecordsOwnEchoes` | pkg/icmp.go:60-98 | the recorded messages are the echoes of the expected kind with the own echo ID and without hole punching, all of them in order of arrival |
| `IcmpUnwrap.BaseIsWraps` | pkg/icmp.go:100-111 | for every stream the base is wraps·2^16, and wraps·32769 plus the count since the last wrap is at most the number of packets |
| `IcmpUnwrap.NoDoubleWrap` | pkg/icmp.go:100-105 | no packets at all can cause a second wrap before half of the space has arrived again |
| `IcmpUnwrap.AlwaysCongruent` | pkg/icmp.go:106-111 | every reported counter has the received 16 bits |
| `IcmpUnwrap.RightExactlyInItsEpoch` | pkg/icmp.go:100-112 | for packets in any order, a reported counter is right if and only if the wraps so far equal the packet's epoch |
| `IcmpUnwrap.UnwrapsExactlyIfRecoverable` | pkg/icmp.go:100-112 | for streams of any length with losses, duplicates and reordering, all counters are recovered if and only if every packet stays in the epoch of its predecessor without looking like a wrap, or opens the next one and looks like one |
| `IcmpUnwrap.PunctualIsRecovered` | pkg/icmp.go:94-105 | if no packet is late by more than 22769 arrivals of its epoch, recovery depends on the epoch changes alone |
| `IcmpUnwrap.SlackIsTight` | pkg/icmp.go:94-105 | a packet late by one more is taken for a wrap |
| `IcmpUnwrap.InOrderIsRecovered` | pkg/icmp.go:100-112 | in-order streams with losses are recovered if and only if every epoch change is to the next epoch, after more than 32768 arrivals, and below 10000 |
| `QuicTracer.StepKeepsInv` | pkg/quic.go:285-367 | every step of callbacks, reader and quit keeps the accounting of accepted packets |
| `QuicTracer.NothingLostBehindTheChannel` | pkg/quic.go:348-367 | result followed by buffer is the sequence of accepted sends, each from exactly one callback |
| `QuicTracer.CallbacksAreEmitted` | pkg/quic.go:285-307 | there is one callback for each packet handed to the tracer, in order |
| `QuicTracer.EveryPacketAccounted` | pkg/quic.go:285-367 | in every interleaving each packet handed to the tracer is in the result, in the channel, or with a callback that has not got it accepted |
| `QuicTracer.DroppedOnlyWhenFullAndQuit` | pkg/quic.go:297-307 | a dropped packet found the buffer full at its first attempt, and quit was closed when it was given up |
| `QuicTracer.CallbackNeverStuck` | pkg/quic.go:297-307 | a callback can always send, see quit, or be given room by the reader |
| `QuicTracer.ReaderEnds` | pkg/quic.go:348-367 | once quit is closed the reader can always go on to its end, and what it has collected by then is final |
| `QuicTracer.DropTakesFullQuitExactly` | pkg/quic.go:297-307 | in every continuation a drop of the packet takes a moment with quit closed and the buffer full, if and only if quit was closed already when the callback arrived |
| `QuicTracer.DropWithRoomInTheBuffer` | pkg/quic.go:297-307 | a concrete run that drops a packet although quit was never closed on a full buffer |
| `Execution.LaunchedAtMostOnce` | cmd/scalpel-exp/experiment/executor.go:43-66 | no sequence of RunClient, Start and mode changes launches a client twice |
| `Execution.DeferredPlan` | cmd/scalpel-exp/experiment/executor.go:43-63 | a deferred plan launches nothing until Start, which launches all its clients in order |
| `Execution.ImmediatePlan` | cmd/scalpel-exp/experiment/executor.go:43-63 | without deferring every client is launched when added; in a dry run none ever is |
| `Execution.Executor.RunClient` | cmd/scalpel-exp/experiment/executor.go:43-53 | client and fresh record are appended, and it is launched exactly if neither mode forbids it |
| `Execution.Executor.Start` | cmd/scalpel-exp/experiment/executor.go:55-63 | everything planned is launched unless in dry run or already started |
| `Execution.Executor.Finalize` | cmd/scalpel-exp/experiment/manifest.go:182-206 | complete exactly without errors, with all records complete and a live context; cancellation turns every open record into a cancelled one and changes no other |
| `Invocation.StepKeepsInv` | cmd/scalpel-exp/client.go:127-204 | no step of clients, finishing procedure or cancellation lets a record or manifest claim more than happened |
| `Invocation.CompleteMeansFaultless` | cmd/scalpel-exp/client.go:127-204 | in every interleaving a complete manifest means every Run and Gather returned nil, nothing was recorded as an error, and nil is returned |
| `Invocation.FailureIsFinal` | cmd/scalpel-exp/experiment/executor.go:65-131 | a failed or cancelled record keeps its status for the rest of the run |
| `Invocation.FailedRunIsRecorded` | cmd/scalpel-exp/experiment/executor.go:65-105 | a failed Run is on record from then on, as cancelled exactly if the context had ended when it returned |
| `Invocation.CancelledLeavesNoneOpen` | cmd/scalpel-exp/experiment/manifest.go:182-206 | no record is open once a cancelled invocation is sealed, in any interleaving |
| `Invocation.ManifestListsAll` | cmd/scalpel-exp/client.go:127-204 | in every run the manifest lists every reported failure in order and nothing else |
| `Invocation.CompleteExactlyIfNilAndAlive` | cmd/scalpel-exp/client.go:127-204 | for every run of a fully launched invocation, wherever a cancellation falls: complete if and only if nil is returned and the context was alive at the seal; cancelled if and only if it was not |
| `Invocation.NilExactlyIfNoFault` | cmd/scalpel-exp/client.go:127-204 | the joined error is sticky: it is set at the end if and only if some step on the way reported one |
| `Invocation.FinishProcedureInvocation` | cmd/scalpel-exp/client.go:127-204 | as a program over the executor: complete only with nil and only complete records; cancelled exactly if the context had ended by the seal; every failure of its calls is listed, in order; if every Run returned nil, nil is returned exactly if every other call succeeded and no cancellation was seen, and the manifest is complete exactly if moreover the context was alive at the seal |
| `Invocation.LateCancellations` | cmd/scalpel-exp/client.go:136-204 | concrete runs that return nil after a late cancellation, with a cancelled and with a complete manifest |
| `Invocation.NeverStuck` | cmd/scalpel-exp/client.go:164-204 | until it has returned, the procedure or a client it waits for can take a step |
| `Invocation.EarlyGatherForgets` | cmd/scalpel-exp/experiment/executor.go:107-131 | for any gathers during and after a run: complete with a recorded error, if and only if one failed before a good end and all of one or more later ones succeed |
| `Schedule.NextRI` | cmd/scalpel-exp/experiment/timing.go:7-20 | the search over seconds 12 to 72 yields the first interval start after the rounded second |
| `Schedule.NextRILands` | cmd/scalpel-exp/experiment/timing.go:7-20 | the result is at second 12, 27, 42 or 57, more than 0.5 s and at most 15.5 s ahead |
| `Schedule.NextRIMonotone` | cmd/scalpel-exp/experiment/timing.go:7-20 | later times never get an earlier interval |
| `Schedule.RIToRI` | cmd/scalpel-exp/experiment/timing.go:7-20 | from an interval start it is exactly 15 s to the next |
| `Schedule.FollowingIsFirst` | cmd/scalpel-exp/experiment/timing.go:5-6 | the interval that really follows ts is the least one after it |
| `Schedule.SkipsNearRI` | cmd/scalpel-exp/experiment/timing.go:5-8 | the result is the following interval if and only if that is more than half a second ahead |
| `Schedule.GreedyFits` | cmd/scalpel-exp/procedures/durationtcp.go:69-82 | groups are chained gap after gap and end by the deadline |
| `Schedule.GreedyIsMaximal` | cmd/scalpel-exp/procedures/durationtcp.go:69-77 | groups are taken in the order drawn up to the first that does not fit |
| `Schedule.ChainIsDisjoint` | cmd/scalpel-exp/procedures/durationtcp.go:69-110 | chained groups lie inside the window and any two are separated by the gap |
| `Schedule.GroupsInsideInterval` | cmd/scalpel-exp/procedures/multidurrate.go:48-118 | for every interval start, all groups of any lists and durations are disjoint and inside [ts + 1 s, ts + 14 s], and nothing panics |
| `Schedule.ClientsAreCaptured` | cmd/scalpel-exp/procedures/multidurrate.go:64-118 | every client of a group runs inside that window and so inside the 15 s capture |
| `Schedule.PanicExactly` | cmd/scalpel-exp/procedures/durationtcp.go:112-114 | the closing check fails if and only if the interval start is less than two seconds away |
| `Schedule.PlaceRounds` | cmd/scalpel-exp/procedures/multidurrate.go:64-112 | the nested loops place exactly the specified groups, an inner misfit ending only its own list |
| `Schedule.FitAndCapture` | cmd/scalpel-exp/procedures/durationtcp.go:56-118 | exactly the fitting groups and the captures are added; for every interval start it does not panic, and the added clients are pairwise in one group or a gap apart, inside [ts + 1 s, ts + 14 s], under captures of 15 s |
| `Schedule.DurationTCP` | cmd/scalpel-exp/procedures/durationtcp.go:51-118 | exactly the fitting TCP groups, three clients each, then the captures; for interval starts without panic and well placed |
| `Schedule.ProgressiveDurationQUIC` | cmd/scalpel-exp/procedures/progdurquic.go:37-75 | exactly the fitting QUIC groups, then the captures; for interval starts without panic and well placed |
| `Schedule.MultiDurationRate` | cmd/scalpel-exp/procedures/multidurrate.go:48-118 | exactly the groups of each rate that fit, then the captures; for interval starts without panic and well placed |
| `Schedule.MultiBurst` | cmd/scalpel-exp/procedures/burst.go:51-101 | exactly the fitting burst groups with their parallel runs, then the captures; for interval starts without panic and well placed |
| `Schedule.LaunchedAt` | cmd/scalpel-exp/procedures/durationtcp.go:56-110 | each client of the k-th group runs the k-th job drawn, with its settings and duration, right after the groups and gaps before it |
| `Schedule.ProductAt` | cmd/scalpel-exp/procedures/durationtcp.go:66-67 | the product holds every pair at its place |
| `Schedule.TcpLaunchedAt` | cmd/scalpel-exp/procedures/durationtcp.go:69-110 | if the k-th draw is a duration and an algorithm, the three clients of the k-th group run it for so many milliseconds |
| `Schedule.QuicLaunchedAt` | cmd/scalpel-exp/procedures/progdurquic.go:37-75 | the k-th transfer lasts as many milliseconds as drawn |
| `Schedule.RateRoundAt` | cmd/scalpel-exp/procedures/multidurrate.go:62-74 | every rate drawn is run at the durations drawn for it |
| `Schedule.BurstLaunchedAt` | cmd/scalpel-exp/procedures/burst.go:51-101 | the k-th group of bursts starts 1 + 4k seconds after the reference time, with 10000 packets up or 3000 down, padded as drawn |
| `CrossingScan.NestedScan` | pkg/udp_pacing_benchmark_test.go:386-396 | for any times and boundaries: the gap at the first crossing of each boundary |
| `CrossingScan.OnePassScan` | benchmarks/analyze.py:213-222 | for nondecreasing times and boundaries the never-reset index yields the same gaps |
| `CrossingScan.CrossedExactlyInside` | benchmarks/analyze.py:216-222 | for nondecreasing times a boundary has a gap exactly if it lies after the first and not after the last packet, and then only one |
| `ParamParser.ParseParams` | cmd/scalpel-exp/param_map.go:14-34 | the loop computes the map of the pairs, or fails on the first malformed one |
| `ParamParser.LastPairWins` | cmd/scalpel-exp/param_map.go:19-32 | each key has the value of its last pair |
| `ParamParser.PairKeyPresent` | cmd/scalpel-exp/param_map.go:19-32 | every pair of an accepted string is well formed and its key is in the map |
| `ParamParser.AcceptedRoundTrips` | cmd/scalpel-exp/param_map_fuzz_test.go:24-43 | the map of every accepted string, written in any key order, parses to the same map |
| `ParamParser.RoundTripExactly` | cmd/scalpel-exp/param_map_fuzz_test.go:24-43 | any map round-trips if and only if keys and values are free of separators and lists have at least two items |
| `ParamPreparation.OverrideHasDeclaredType` | cmd/scalpel-exp/procedures/params.go:106-221 | an accepted override has the declared type, and a value of that type is accepted unchanged |
| `ParamPreparation.OverrideExactly` | cmd/scalpel-exp/procedures/params.go:106-221 | an override is turned into a value exactly if that is what it means for the declared type: itself, the 32-bit number a plain numeral denotes, the algorithm a name spells, a list of one, or a list element by element |
| `ParamPreparation.DirectionExactly` | cmd/scalpel-exp/procedures/params.go:70-82 | a direction becomes "ul" exactly for the four spellings of ul, and likewise for dl |
| `ParamPreparation.ParseAllElements` | cmd/scalpel-exp/procedures/params.go:172-181 | a list override parses exactly if all its elements do, element by element |
| `ParamPreparation.PrepareParams` | cmd/scalpel-exp/procedures/params.go:29-64 | for every visiting order the outcome is the same order-free result |
| `ParamPreparation.PreparedExactly` | cmd/scalpel-exp/procedures/params.go:29-64 | preparation yields a map exactly if all defaults are supported, its keys are the declared and the overridden ones, and each value is what the override means, or the default without one; so every unsupported, unknown or meaningless override is refused |
| `ParamPreparation.DefaultExactly` | cmd/scalpel-exp/procedures/params.go:30-38 | the default of a parameter is that of its last declaration |
| `ParamPreparation.PreparedKeys` | cmd/scalpel-exp/procedures/params.go:29-64 | the keys are the declared ones plus direction exactly if supplied |
| `ParamPreparation.PreparedTypes` | cmd/scalpel-exp/procedures/params.go:15-28 | every value has its declared type and a supplied direction is "ul" or "dl" |
| `ParamPreparation.IdempotentExactly` | cmd/scalpel-exp/procedures/params.go:29-64 | preparing again changes nothing, if and only if no declared direction was left at an unacceptable default |
| `ParamPreparation.RegisteredIsIdempotent` | cmd/scalpel-exp/procedures/registry.go:109-126 | since registration refuses a declared direction, preparation is idempotent for every registered procedure |

## Left out

- Sockets, system calls, kernel timestamps and control messages: only their outcomes enter, as arbitrary choices within a contract.
- TCP monitoring, congestion control selection, QUIC connections and TLS: library behaviour.
- RPC transport, dialing, Server.Stop, connection tracking, NAT hole punching and process signals: plumbing around the modelled protocols.
- PeriodicSender, UDPReceiver, ICMPSender's timing, TCP rows and summaries: no property beyond those of the modelled parts.
- Floating point: rateInterval is read as an exact quotient; NumPackets and statistics are not modelled; the gaps of the crossing scan are compared before their division by 1000.
- 64-bit durations and saturating time differences: times are unbounded; only counters and the pacing product wrap.
- RateSending.RateSender.RunSegment: how many ticks come before the segment's context ends is unknown but finite; that the ticker fires at its interval is not modelled. The order of the deadline callback relative to the loop is the subject of WriteDeadline.dfy.
- RateSending.RateSender.FillBatch: transmit buffers are values with a capacity, so aliasing between the reused slices is not captured; Wire.Encode models the writes into one buffer.
- ResultMerge.SortArrivals: stands for the library sort; only that the result is a sorted permutation is used.
- Calendar text, zones, the millisecond text and the readers fromisoformat and float are parameters, assumed to read back what was printed on a range of seconds; the CSV quoting layer is the identity.
- ResultRows.ParseRows: integers are an optional sign and ASCII digits; further spellings accepted by Python's int do not occur in printed rows. Error texts are a kind and a line number.
- ServerGuarantees.TestsNeverBlock: assumes that the test's own ID is used safely, which clients that generate fresh IDs guarantee; what goes wrong otherwise is stated by the lemmas on reuse. A panic shows as a step that is never enabled; that it ends the process is not a step of the model. Test contents, probes and socket setup are not modelled.
- EndToEnd.MeasureUDP: runs whose counter does not pass 2^64, where sequence numbers are still distinct; packets that do not belong to the run are not modelled.
- Invocation.CompleteMeansFaultless: warnings, metadata, artifacts and the contents of info.json are not modelled; a failed final write is.
- Schedule.NextRI: zones with offsets of whole minutes and no clock change inside the minute; leap seconds do not exist.
- Schedule.DurationTCP: file names and constant client settings are left out; the drawn order is a parameter and any indices are allowed.
- prograte, rampupprobe, cdsf and cddf: schedulers without a fit check on the whole window or with random rejection loops.
- ParamPreparation.PrepareParams: which of several errors is reported depends on the visiting order and is not modelled.
- Help text, command-line structures, host and build metadata, logging setup and file writing.
