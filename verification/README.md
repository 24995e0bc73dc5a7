# Verified model of the UWB applications

A Dafny model of the parts of the firmware and its listener tools that carry state, loops and arithmetic of their own,
with proofs about every input and every run. `dafny verify dfyconfig.toml` checks all of it.

## What is modelled

- **RTDoA backhaul** (`Wire`, `Layout`, `Mbuf`, `Backhaul`, `Guards`, `BackhaulRuns`, `Semaphore`, `Sender`,
  `Delivery`, `AirDelivery`, `Printer`, `Printout`). A tag or anchor collects range differences into a static packet,
  sends it in two partial buffer writes or queues it for its own bridge; a bridge receives such packets in an interrupt,
  drops repeats, queues them in a pool of fixed-size blocks and prints them. A listener task shares a semaphore and a
  deadline with two radio callbacks.
- **Streaming demo** (`Stream`). Packets numbered modulo 256 over a lossy channel, and counters of received and missed
  ones.
- **Two-way ranging node** (`DeferredConfig`). A committed radio configuration is applied at once or in the next free
  slot; the receive timeout is computed once and kept.
- **TDMA schedules** (`Tdma`, `TagRanging`). Devices fill their slot tables on their own and decide on their own who
  transmits.
- **Listener tools** (`CirShift`, `LineSplitter`). Alignment of two sampled arrays, and splitting a chunked stream into
  lines.

## How the model is built

Every callback is a method of a class that updates its fields as the source does. The method's contract equates the new
state with a step function of the old one, and the theorems are about that step function: invariants of one step,
then of every run (any finite sequence of enabled steps, in any interleaving). Choices that the environment makes are
parameters of the step: how many block requests are granted, whether the queue takes a chain, whether the radio reports
a start error, whether the clock semaphore is free. A listen, which blocks, is cut into eight steps between which the
callbacks can run; callbacks, sends and drain turns are one step each.

What a step function does is itself stated once more in the numbers of the protocol and without the model's own names
(`Guards`, `Layout`, `Sender.ReportFields`, `Printer.MeasLabels`, `Stream.ReceiveExact`, `Tdma.NodeSlotExact` and the
other lemmas called `...Exact` or `...Fields`), so that a wrong condition or constant shared by a method and its step
function fails there.

The main results are `Delivery.BridgeRoundTrip`, `AirDelivery.EndToEnd`, `Printout.AirRunReadBack`,
`Semaphore.OneListenExact`, `Semaphore.AlwaysOneIff`, `BackhaulRuns.RunConserves`, `BackhaulRuns.QueueSizeAfterDrain`,
`BackhaulRuns.FilterCollapses`, `BackhaulRuns.ListenDeadline`, `Sender.Reporter.Send`, `Printer.ReadPrinted`,
`Stream.StreamExact`, `Stream.CongruentIff`, `DeferredConfig.ListensFreshIff`, `Tdma.SingleTransmitter`,
`Tdma.RunFairness`, `Tdma.NodeCommitApplied`, `TagRanging.AlwaysServedIff`, `CirShift.AlignedIff` and
`LineSplitter.ChunkingIsInvisible`.

## What turned out not to hold as one might expect

- The semaphore is not always one between listens. `OneListenExact` gives the count after a listen from the events in
  it, `AlwaysOneIff` the condition for a whole run; `TwoByStartError` and `TwoBySecondFrame` are runs that end with two.
- The receive callback keeps its blocks for good on its two error returns
  (lib/rtdoa_backhaul/src/rtdoa_backhaul.c:467-474) and then does not wake the listener. `LostExact` and
  `QueueSizeAfterDrain` say exactly when; `CopyFailWitness` and `PutFailWitness` are inputs.
- The repeat filter compares with the packet right before only, and by an 8-bit number. A new packet 256 calls after the
  last one received is dropped silently (`FreshPacketDropped`, exactly when: `OneSenderAccepted`), and a repetition
  behind a packet of another sender passes (`RepeatPassesAfterOther`).
- The frame on air names the reference anchor of the call before, because the address is assigned after the first
  buffer write (`AirLagsOneCall`, `AirNamesOwnIff`, `LagWitness`); the local copy names the current one.
- A numeric difference is written before the frame's source is looked at, so sixteen counting frames and one more can
  leave the range array (`WritesFitIff`, `OverrunWitness`).
- A commit on the immediate path leaves a kept timeout in place (`ImmediatePathIsStale`). `ListensFreshIff` says exactly
  when a listen sees it, `CacheRightIffHarmless` when the cache itself is stale, and `StaleButUnseen` tells the two apart.
- Across a superframe boundary a tag can be served twice or not at all in as many slots as there are tags
  (`BoundaryWitness`), unless the ranging slots are a multiple of the tags (`AlwaysServedIff`). A tag whose slot id is not
  below their number never gets a slot (`LateTagStarves`).
- The comment at lib/rtdoa_backhaul/include/rtdoa_backhaul/rtdoa_backhaul.h:40 gives 38 bytes for the sensor record; its
  packed fields add up to 39, which the model uses.

## Model

| member | source | states |
|---|---|---|
| Wire.DecodeEncode | lib/rtdoa_backhaul/include/rtdoa_backhaul/rtdoa_backhaul.h:28-55 | reading back the packed image of any packet yields the packet, bit-fields, signs and all 16 range slots included |
| Wire.EncodeDecode | lib/rtdoa_backhaul/include/rtdoa_backhaul/rtdoa_backhaul.h:28-55 | every image of the packet's size is the image of the packet read from it, so the layout leaves no byte unused |
| Wire.TruncateAndFill | lib/rtdoa_backhaul/src/rtdoa_backhaul.c:663-665 | cutting the image after n ranges and filling up with zero bytes is the image of the packet whose slots at or past n are zero |
| Wire.RefBytes | lib/rtdoa_backhaul/src/rtdoa_backhaul.c:630-635 | the reference address occupies exactly bytes 50 and 51, and no other byte depends on it |
| Wire.CopyOut | lib/rtdoa_backhaul/src/rtdoa_backhaul.c:347-352 | copying a payload of any length over a zeroed record gives payload, then zeros, never more than the record |
| Layout.PacketLayout | lib/rtdoa_backhaul/include/rtdoa_backhaul/rtdoa_backhaul.h:28-55 | byte for byte, header, clock part, motion part, reference address and count stand at 0, 11, 29, 50 and 52 of 181 bytes, and slot k of 16 at 53 + 8k |
| Layout.HeaderLayout | lib/rtdoa_backhaul/src/rtdoa_backhaul.c:127-135 | the header is control word, number, PAN, destination, source and code, in that order, low bytes first |
| Layout.ClockLayout | lib/rtdoa_backhaul/include/rtdoa_backhaul/rtdoa_backhaul.h:28-33 | timestamp, the three bit-fields of the flag word from the low bits up, latitude and longitude, in that order |
| Layout.MotionLayout | lib/rtdoa_backhaul/include/rtdoa_backhaul/rtdoa_backhaul.h:34-39 | battery, pressure, compass, acceleration and gyro in that order, negative values in two's complement |
| Layout.RangeLayout | lib/rtdoa_backhaul/include/rtdoa_backhaul/rtdoa_backhaul.h:42-47 | address, distance, and one word with the rssi in its low 14 bits and the quality in its top two, in two's complement |
| Layout.SentLength | lib/rtdoa_backhaul/src/rtdoa_backhaul.c:663-665 | a packet with n ranges is sent with 53 + 8n bytes |
| Mbuf.ChunksJoin | lib/rtdoa_backhaul/src/rtdoa_backhaul.c:460-467 | a chain holds the data in order, every block but the last is full, and no more blocks are taken than the data needs |
| Backhaul.Node.constructor | lib/rtdoa_backhaul/src/rtdoa_backhaul.c:695-714 | power-up state: semaphore one, role invalid, repeat filter at (0,0), all blocks free |
| Backhaul.Node.QueueSize | lib/rtdoa_backhaul/src/rtdoa_backhaul.c:605-610 | the reported queue size is the blocks in queued chains plus the blocks kept by failed receptions |
| Backhaul.Node.BuildChain | lib/rtdoa_backhaul/src/rtdoa_backhaul.c:582-590 | block by block copy-in: for any pool and any refusal it takes exactly as many blocks as are to be had up to the need, and the chain is complete exactly when they suffice |
| Backhaul.Node.TakeIn | lib/rtdoa_backhaul/src/rtdoa_backhaul.c:457-484 | behind the filter: the frame counts as seen before memory is asked for; a missing first block still wakes the listener; the two error returns keep their blocks and do not wake it |
| Backhaul.Node.RxComplete | lib/rtdoa_backhaul/src/rtdoa_backhaul.c:417-487 | the callback is the reception step used in all run theorems, and reports a frame as handled exactly when control word and code are the backhaul's |
| Backhaul.Node.OnReceive | lib/rtdoa_backhaul/src/rtdoa_backhaul.c:417-487 | the same on the raw receive buffer, with the length passed through the 15-bit field |
| Backhaul.Node.TxComplete | lib/rtdoa_backhaul/src/rtdoa_backhaul.c:400-415 | the transmit callback is the transmission step; it leaves the frame to others while a listen has its deadline set |
| Backhaul.Node.LocalSend | lib/rtdoa_backhaul/src/rtdoa_backhaul.c:577-603 | success exactly when the queue grew by one chain; the state is that of the local-send step |
| Backhaul.Node.DrainHead | lib/rtdoa_backhaul/src/rtdoa_backhaul.c:345-364 | one turn of the drain loop takes the oldest chain, prints it on a bridge only, and frees it |
| Backhaul.Node.Drain | lib/rtdoa_backhaul/src/rtdoa_backhaul.c:338-365 | the drain loop ends with an empty queue and every block free except the kept ones |
| Guards.OtherProtocolIgnored | lib/rtdoa_backhaul/src/rtdoa_backhaul.c:430-437 | a frame with a control word other than 0x88C1 or a code below 0x6003 changes at most the radio's timeout |
| Guards.NotForUsWakes | lib/rtdoa_backhaul/src/rtdoa_backhaul.c:439-484 | one of the protocol with another role than bridge, another destination or fewer than 39 bytes only raises the semaphore from zero to one |
| Guards.QualifiesIff | lib/rtdoa_backhaul/src/rtdoa_backhaul.c:430-451 | the five conditions on which a frame reaches the repeat filter |
| Guards.RepeatIgnored | lib/rtdoa_backhaul/src/rtdoa_backhaul.c:451-455 | a frame that meets all five and repeats source and number of the last one changes at most the timeout |
| Guards.IngestExact | lib/rtdoa_backhaul/src/rtdoa_backhaul.c:460-474 | which answer of pool and queue leads to which of the four outcomes, and how many blocks each takes |
| Guards.NewFrame | lib/rtdoa_backhaul/src/rtdoa_backhaul.c:457-484 | a new qualifying frame is always remembered; then it is dropped, keeps its blocks or is queued, and wakes the listener in the first and last case; nothing else changes |
| Guards.OnlyThen | lib/rtdoa_backhaul/src/rtdoa_backhaul.c:417-487 | filter memory, pool and queue change only for new frames that meet all five conditions, and the timeout only while a deadline is set |
| Guards.TimeoutSet | lib/rtdoa_backhaul/src/rtdoa_backhaul.c:425-428 | any reception sets the timeout to bits 16 to 31 of the time left, if a deadline is set |
| Guards.TransmissionExact | lib/rtdoa_backhaul/src/rtdoa_backhaul.c:400-415 | a finished transmission raises the semaphore from zero to one if it is of the protocol and no deadline is set, and does nothing else |
| Guards.ListenBegins | lib/rtdoa_backhaul/src/rtdoa_backhaul.c:376-383 | the first steps of a listen: acquire, deadline start + 65536 * window modulo 2^64, timeout; when each is possible and all it changes |
| Guards.ListenEnds | lib/rtdoa_backhaul/src/rtdoa_backhaul.c:385-397 | the others: release on a start error, second acquire, release, deadline back to zero |
| Guards.DrainExact | lib/rtdoa_backhaul/src/rtdoa_backhaul.c:345-364 | one turn takes the oldest chain, frees its blocks, and prints its record on a bridge alone |
| Guards.PowerUp | lib/rtdoa_backhaul/src/rtdoa_backhaul.c:695-714 | every field at power-up |
| BackhaulRuns.RunConserves | lib/rtdoa_backhaul/src/rtdoa_backhaul.c:457-484 | the same sum over every interleaving of receive, local-send, drain and listen steps with arbitrary refusals |
| BackhaulRuns.LocalSendAllOrNothing | lib/rtdoa_backhaul/src/rtdoa_backhaul.c:577-603 | a local send queues its whole packet if and only if pool and queue allow it, and otherwise leaves pool, queue, semaphore and output alone |
| BackhaulRuns.DrainEmpties | lib/rtdoa_backhaul/src/rtdoa_backhaul.c:338-365 | a full drain frees exactly the queued blocks and prints the queued packets in order, changing nothing else |
| BackhaulRuns.LostExact | lib/rtdoa_backhaul/src/rtdoa_backhaul.c:457-474 | a step loses blocks for good if and only if it receives a new qualifying frame that is given some blocks, and they are too few or the queue refuses; then all it was given |
| BackhaulRuns.QueueSizeAfterDrain | lib/rtdoa_backhaul/src/rtdoa_backhaul.c:605-610 | after any run from power-up and a full drain the blocks in use are exactly the lost ones; the pool is whole if and only if no reception met the guard |
| BackhaulRuns.CopyFailWitness | lib/rtdoa_backhaul/src/rtdoa_backhaul.c:467-470 | an input that loses the only block because the payload needs two, and leaves the listener asleep |
| BackhaulRuns.PutFailWitness | lib/rtdoa_backhaul/src/rtdoa_backhaul.c:471-474 | an input that loses the only block because the queue refuses, and leaves the listener asleep |
| BackhaulRuns.CollapseNoRepeat | lib/rtdoa_backhaul/src/rtdoa_backhaul.c:452-458 | no two consecutive accepted frames agree in source and number |
| BackhaulRuns.CollapseTwice | lib/rtdoa_backhaul/src/rtdoa_backhaul.c:452-458 | filtering a filtered sequence removes nothing |
| BackhaulRuns.FilterCollapses | lib/rtdoa_backhaul/src/rtdoa_backhaul.c:417-479 | over every run the passed frames are the qualifying ones with adjacent repeats collapsed, also when memory ran out in between |
| BackhaulRuns.RunLogs | lib/rtdoa_backhaul/src/rtdoa_backhaul.c:460-479 | over every run of a bridge, printed plus waiting packets are what was queued, in order, none lost, doubled or altered |
| BackhaulRuns.AllPrinted | lib/rtdoa_backhaul/src/rtdoa_backhaul.c:338-365 | after a full drain all of them have been printed |
| BackhaulRuns.TimeoutExact | lib/rtdoa_backhaul/src/rtdoa_backhaul.c:425-428 | a reprogrammed timeout ends within one unit before the deadline if and only if the frame came no later than it and less than 2^32 ticks before it |
| BackhaulRuns.WrapCancels | lib/rtdoa_backhaul/src/rtdoa_backhaul.c:425-428 | with a deadline below 2^41 and a true time at most 2^32 ticks before it, the 40-bit timestamp yields the same timeout as the true time |
| BackhaulRuns.DeadlineKept | lib/rtdoa_backhaul/src/rtdoa_backhaul.c:425-428 | over every run inside a listen the deadline stands still and the timeout, counted from the true time of the last reception, always ends in (D - 65536, D] and never grows, also across a wrap of the 40-bit clock |
| BackhaulRuns.ListenDeadline | lib/rtdoa_backhaul/src/rtdoa_backhaul.c:375-396 | for a whole listen from its call on and any interleaving: as soon as the radio timeout is set, D is start + 65536 * window, and the timeout ends in (D - 65536, D] after every reception at any true time |
| BackhaulRuns.RunDeadlineSet | lib/rtdoa_backhaul/src/rtdoa_backhaul.c:375-396 | over every run the deadline is start plus window from its assignment to the end of the listen, and zero at all other times |
| Semaphore.ReleaseExact | lib/rtdoa_backhaul/src/rtdoa_backhaul.c:400-487 | each callback changes the count by exactly the guard on the state before it: count zero, right frame, no repeat, no blocks kept, no deadline for a transmission |
| Semaphore.WokenUnlessLost | lib/rtdoa_backhaul/src/rtdoa_backhaul.c:435-484 | a waiting listener is woken by a backhaul frame if and only if the frame neither repeats the last one nor meets the guard that keeps blocks |
| Semaphore.RunSemBounded | lib/rtdoa_backhaul/src/rtdoa_backhaul.c:375-415 | over every run the count stays within the bound of each point of the listener and never exceeds two |
| Semaphore.NoReleaseOutsideListen | lib/rtdoa_backhaul/src/rtdoa_backhaul.c:410-413 | no callback releases while no listen holds the semaphore |
| Semaphore.SemBetweenListens | lib/rtdoa_backhaul/src/rtdoa_backhaul.c:375-415 | whenever no listen is active the count is one plus the guarded releases and start errors in excess of one per listen |
| Semaphore.OneListen | lib/rtdoa_backhaul/src/rtdoa_backhaul.c:375-415 | a listen hands the semaphore back as it found it if and only if the guards let exactly one release through, start error included |
| Semaphore.OneListenExact | lib/rtdoa_backhaul/src/rtdoa_backhaul.c:375-415 | the count after a listen from what happens in it: Max(1, count before - 1 + early releases + start errors) + late releases |
| Semaphore.TwoIff | lib/rtdoa_backhaul/src/rtdoa_backhaul.c:375-415 | a listen begun at one ends at two if and only if a release before the radio starts meets a start error, or a release falls between second acquire and final release |
| Semaphore.AlwaysOneIff | lib/rtdoa_backhaul/src/rtdoa_backhaul.c:375-415 | over any number of listens the count is one between all of them if and only if no event is a start error on a non-empty semaphore or a late release |
| Semaphore.TwoByStartError | lib/rtdoa_backhaul/src/rtdoa_backhaul.c:384-388 | a run with one start error that ends at two: a transmit callback before the deadline is set |
| Semaphore.TwoBySecondFrame | lib/rtdoa_backhaul/src/rtdoa_backhaul.c:390-393 | a run without any error that ends at two: a second frame before the final release |
| Sender.AcceptedAt | lib/rtdoa_backhaul/src/rtdoa_backhaul.c:637-661 | a frame with a numeric difference and a non-zero source appears behind exactly the counting frames before it |
| Sender.AcceptedFrom | lib/rtdoa_backhaul/src/rtdoa_backhaul.c:637-661 | every collected range comes from such a frame, so a rejected frame's early write never shows |
| Sender.AcceptedCount | lib/rtdoa_backhaul/src/rtdoa_backhaul.c:637-661 | there are exactly as many ranges as frames with a numeric difference and a non-zero source |
| Sender.ReportFields | lib/rtdoa_backhaul/src/rtdoa_backhaul.c:625-665 | field by field: header with the next 8-bit number and code 0x6003, own sensors, reference anchor, count, the collected ranges and zeros behind them |
| Sender.ClearedFields | lib/rtdoa_backhaul/src/rtdoa_backhaul.c:688-692 | after the send header, reference and count stand and every sensor field and every range is zero |
| Sender.ImuFields | lib/rtdoa_backhaul/src/rtdoa_backhaul.c:612-619 | an IMU report differs from the packet in number and timestamp alone; afterwards every sensor field is zero |
| Sender.FirstFields | lib/rtdoa_backhaul/src/rtdoa_backhaul.c:127-153 | control word 0x88C1, number 0, PAN 0xDECA, broadcast, own address, code 0x6003, and zeros |
| Sender.WritesFitIff | lib/rtdoa_backhaul/src/rtdoa_backhaul.c:645-647 | every write stays in the range array if and only if no frame behind the sixteenth counting one has a numeric difference |
| Sender.OverrunWitness | lib/rtdoa_backhaul/src/rtdoa_backhaul.c:645-651 | seventeen frames whose last write leaves the array, even if the last does not count |
| Sender.FewFramesFit | lib/rtdoa_backhaul/src/rtdoa_backhaul.c:637-661 | with at most 16 frames every write fits |
| Sender.Reporter.constructor | lib/rtdoa_backhaul/src/rtdoa_backhaul.c:127-153 | the static packets as initialised, with the device's own source address |
| Sender.Reporter.Collect | lib/rtdoa_backhaul/src/rtdoa_backhaul.c:637-661 | for any frames the loop stays in the array exactly when all writes fit; then it leaves exactly the accepted ranges in front, later slots as they were, and in the slot right behind at most a stray difference |
| Sender.Reporter.BeginSend | lib/rtdoa_backhaul/src/rtdoa_backhaul.c:625-634 | first half: next number modulo 256, count zero, and the bytes up to the count in the radio buffer |
| Sender.Reporter.FinishAir | lib/rtdoa_backhaul/src/rtdoa_backhaul.c:667-679 | second half: after both writes the buffer holds the final packet with the reference address it had at the first write |
| Sender.Reporter.SendOverAir | lib/rtdoa_backhaul/src/rtdoa_backhaul.c:625-679 | what goes on air and what the packet holds before the local copy is taken, for any frames whose writes fit |
| Sender.Reporter.Send | lib/rtdoa_backhaul/src/rtdoa_backhaul.c:621-693 | whole call: packet afterwards, frame on air, radio buffer and local queue, for every role, with and without air time and start error |
| Sender.Reporter.SendImuOnly | lib/rtdoa_backhaul/src/rtdoa_backhaul.c:612-619 | only sensors are queued, under the next number; the IMU packet is then cleared |
| Sender.TwoWrites | lib/rtdoa_backhaul/src/rtdoa_backhaul.c:630-670 | two overlapping partial writes equal one write of the packet that carries the earlier reference address |
| Sender.OnlySensorsKept | lib/rtdoa_backhaul/src/rtdoa_backhaul.c:612-619 | IMU reports never get anything behind their sensors, an invariant of the reporter |
| Sender.FirstPacketIff | lib/rtdoa_backhaul/src/rtdoa_backhaul.c:141-153 | only the packet of power-up has its header, cleared sensors and nothing behind them |
| Delivery.LocalImage | lib/rtdoa_backhaul/src/rtdoa_backhaul.c:577-603 | the record printed for a locally queued packet is the report with every slot past its ranges zero |
| Delivery.AirImage | lib/rtdoa_backhaul/src/rtdoa_backhaul.c:621-693 | the record printed for a received packet is the report with the sender's earlier reference address |
| Delivery.AirDiffersOnlyInRef | lib/rtdoa_backhaul/src/rtdoa_backhaul.c:630-635 | air frame and local copy of one call agree on every byte except the two of the reference address |
| Delivery.BridgeRoundTrip | lib/rtdoa_backhaul/src/rtdoa_backhaul.c:577-603 | if a bridge's local send succeeds, then after any further run a drain prints exactly that report, between what was logged before and what was queued after |
| Delivery.ImuRoundTrip | lib/rtdoa_backhaul/src/rtdoa_backhaul.c:612-619 | an IMU report, cut after the sensors, is printed complete after any further run |
| Delivery.ReportAtFacts | lib/rtdoa_backhaul/src/rtdoa_backhaul.c:621-693 | over any sequence of sends the i-th report has number first + i + 1 modulo 256, its own reference anchor and its own timestamp |
| Delivery.AirLagsOneCall | lib/rtdoa_backhaul/src/rtdoa_backhaul.c:630-635 | over any sequence of sends the i-th air frame names the reference anchor of call i - 1, the initial value at first |
| Delivery.AirNamesOwnIff | lib/rtdoa_backhaul/src/rtdoa_backhaul.c:630-635 | an air frame names its own reference anchor if and only if it is that of the call before |
| Delivery.LagWitness | lib/rtdoa_backhaul/src/rtdoa_backhaul.c:630-635 | two calls of which the second goes on air under the first one's anchor |
| AirDelivery.ReceivedQualifies | lib/rtdoa_backhaul/src/rtdoa_backhaul.c:435-451 | a broadcast report passes a bridge's address, code and length checks |
| AirDelivery.MasksDiffer | lib/rtdoa_backhaul/src/rtdoa_backhaul.c:451-479 | over every run a frame that memory takes is accepted if and only if its key differs from that of the qualifying frame right before it |
| AirDelivery.EndToEnd | lib/rtdoa_backhaul/src/rtdoa_backhaul.c:338-693 | for packets of any number of senders, lost, repeated and mixed in any way: a drain prints everything queued in order, and from the air exactly the accepted packets, complete, each under its sender's earlier reference anchor; accepted are those that memory takes and whose source and number differ from the packet right before |
| AirDelivery.OneSenderAccepted | lib/rtdoa_backhaul/src/rtdoa_backhaul.c:452-458 | with one sender a taken packet is dropped if and only if it is a multiple of 256 calls from the one before, a repetition being distance zero |
| AirDelivery.EndToEndFresh | lib/rtdoa_backhaul/src/rtdoa_backhaul.c:338-693 | so without such distances every taken packet is printed |
| AirDelivery.EndToEndAll | lib/rtdoa_backhaul/src/rtdoa_backhaul.c:338-693 | and without own packets and memory losses the output is those packets one by one |
| AirDelivery.FreshPacketDropped | lib/rtdoa_backhaul/src/rtdoa_backhaul.c:452-456 | a new packet 256 calls after the last one received changes neither queue nor output, whatever memory there is |
| AirDelivery.RepeatPassesAfterOther | lib/rtdoa_backhaul/src/rtdoa_backhaul.c:452-458 | a packet heard again behind one of another sender is queued a second time |
| Printout.BridgeReadBack | lib/rtdoa_backhaul/src/rtdoa_backhaul.c:271-365 | after any further run the record printed for a local send has a count within 16 and its text reads back as the reference anchor, addresses and distances of exactly the frames that count |
| Printout.AirReadBack | lib/rtdoa_backhaul/src/rtdoa_backhaul.c:271-365 | so does the record of one packet from the air, under the earlier reference anchor |
| Printout.AirRunReadBack | lib/rtdoa_backhaul/src/rtdoa_backhaul.c:271-365 | over every run with any senders the record printed for an accepted packet reads back as the ranges of exactly the frames that count in its call |
| Printer.NumberRoundTrip | lib/rtdoa_backhaul/src/rtdoa_backhaul.c:286 | printed numbers read back to their value, have no leading zero and only digits of their base |
| Printer.DistanceRoundTrip | lib/rtdoa_backhaul/src/rtdoa_backhaul.c:319-324 | compact and row form read back to the same distance and differ exactly for zero |
| Printer.DistanceIsJson | lib/rtdoa_backhaul/src/rtdoa_backhaul.c:289-295 | every printed distance matches the number grammar of section 6 of RFC 8259 |
| Printer.ReadCommas | lib/rtdoa_backhaul/src/rtdoa_backhaul.c:281-306 | a printed column splits back into its elements, and nothing behind it is touched |
| Printer.PrintColumn | lib/rtdoa_backhaul/src/rtdoa_backhaul.c:280-307 | the inner loop prints the j-th column of as many slots as the record counts, also past its end |
| Printer.PrintMeas | lib/rtdoa_backhaul/src/rtdoa_backhaul.c:271-310 | the nested loops print the measurement of the counted slots, or only the end of the line when there are none |
| Printer.MeasLabels | lib/rtdoa_backhaul/src/rtdoa_backhaul.c:271-311 | for every range list the text is the labels meas, ref, a, dd, rs and qf with their punctuation around the reference and the four columns, or only the end of the line |
| Printer.ColumnElements | lib/rtdoa_backhaul/src/rtdoa_backhaul.c:284-306 | the i-th elements: quoted address in hexadecimal, distance, rssi, quality as an unsigned hexadecimal number |
| Printer.CommasAppend | lib/rtdoa_backhaul/src/rtdoa_backhaul.c:283-303 | columns join with exactly one comma, and one element stands alone |
| Printer.CountedAt | lib/rtdoa_backhaul/src/rtdoa_backhaul.c:281-282 | the k-th printed slot is slot k of the record, or what lies behind it from the seventeenth on |
| Printer.DistanceText | lib/rtdoa_backhaul/src/rtdoa_backhaul.c:289-295 | whole metres of the absolute value, a point and three digits, with a minus unless positive in the compact form and only if negative in the row form |
| Printer.ReadPrinted | lib/rtdoa_backhaul/src/rtdoa_backhaul.c:271-310 | for every packet with ranges, reading the compact output recovers in order all addresses, 32-bit distances and qualities, in columns of equal length |
| Stream.Transmitter.constructor | apps/streaming/src/main.c:367-368 | the buffer starts as 0, 1, 2, ... modulo 256 |
| Stream.Transmitter.Renumber | apps/streaming/src/main.c:259-262 | the next index, and a checksum that covers it |
| Stream.Transmitter.StreamTimer | apps/streaming/src/main.c:240-269 | one timer event sends one consecutively numbered packet per round, at most 18, and stops at the first round without destination or buffer |
| Stream.SentNumbered | apps/streaming/src/main.c:240-269 | however the timer events fall, the k-th packet ever sent carries the first index plus k + 1 modulo 256 |
| Stream.Receiver.constructor | apps/streaming/src/main.c:209-211 | counters and index start at zero |
| Stream.Receiver.TransportCb | apps/streaming/src/main.c:212-236 | the callback is the reception step of the theorems: short, long and damaged packets included |
| Stream.ReceiveExact | apps/streaming/src/main.c:212-236 | the packet overwrites the front of the buffer and its index is taken over; it counts if and only if the buffer's first byte is the checksum of the rest and the 16-bit length is the buffer's; then one more ok and the gap modulo 256 more missed |
| Stream.GoodCounted | apps/streaming/src/main.c:209-236 | over any run, damaged packets and any lengths included, ok grows by exactly the number of good packets modulo 2^32 |
| Stream.CongruentIff | apps/streaming/src/main.c:209-236 | after any run ok + missed agrees with the index modulo 256 if and only if the uncounted packets have moved the index by a multiple of 256 in all |
| Stream.CongruentStep | apps/streaming/src/main.c:218-234 | one reception keeps ok + missed congruent to the index modulo 256 if and only if checksum and length are right or the index repeats |
| Stream.CongruentAlways | apps/streaming/src/main.c:209-236 | with intact packets in any order and with any gaps the congruence always holds, across 32-bit wraps |
| Stream.StreamAccount | apps/streaming/src/main.c:209-268 | for any timer events and any in-order losses from power-up, ok is the number of deliveries and ok + missed is the last packet's number plus 1, less 256 per lost turn, modulo 2^32 |
| Stream.StreamExact | apps/streaming/src/main.c:209-268 | before a counter wraps, the counters are exact if and only if fewer than 256 packets are lost in every gap |
| DeferredConfig.TwrNode.ConfigUpdated | apps/twr_node_tdma/src/main.c:178-206 | a commit is the commit step: applied at once while waiting for the clock, else marked |
| DeferredConfig.TwrNode.SlotCb | apps/twr_node_tdma/src/main.c:226-293 | a slot is the slot step: nothing while waiting, else apply and skip, else listen |
| DeferredConfig.CommitExact | apps/twr_node_tdma/src/main.c:178-206 | a commit reaches the radio at once only while the device waits for its clock, else it is only marked |
| DeferredConfig.SlotExact | apps/twr_node_tdma/src/main.c:226-293 | a waiting slot changes nothing and starts no listen; a pending configuration is applied, the timeout dropped and no listen started; else the listen uses the kept or newly computed timeout |
| DeferredConfig.RunInStep | apps/twr_node_tdma/src/main.c:178-293 | on every run either the flag is set or radio and acknowledgement are those of the last commit |
| DeferredConfig.ListenUsesCommitted | apps/twr_node_tdma/src/main.c:242-290 | every listen of every run uses the last committed configuration |
| DeferredConfig.ListenTimeout | apps/twr_node_tdma/src/main.c:265-272 | a listen uses the timeout of a fresh computation if and only if the kept one is right |
| DeferredConfig.CacheRightIffHarmless | apps/twr_node_tdma/src/main.c:178-293 | the kept timeout is right after every prefix of a run if and only if all its commits are harmless |
| DeferredConfig.ListensFreshIff | apps/twr_node_tdma/src/main.c:178-293 | from power-up every listen of a run uses a freshly computed timeout if and only if, at each listen with a kept one, the configuration it was computed for has the same timeout as the committed one |
| DeferredConfig.FreshTimeouts | apps/twr_node_tdma/src/main.c:265-272 | in particular on runs without immediate commits over a filled cache |
| DeferredConfig.StaleButUnseen | apps/twr_node_tdma/src/main.c:246-263 | a run whose cache is stale for a while although every listen is right |
| DeferredConfig.ImmediatePathIsStale | apps/twr_node_tdma/src/main.c:185-202 | an input that shows the immediate path leaves a stale timeout behind |
| DeferredConfig.DeferredIsApplied | apps/twr_node_tdma/src/main.c:246-263 | after any wait the first free slot applies a deferred commit and the next one listens with it and with its timeout |
| Tdma.AllocateNodeSlots | apps/rtdoa_node/src/main.c:260-291 | the anchor's loop gives every slot its handler |
| Tdma.AllocateTagSlots | apps/rtdoa_tag/src/main.c:270-292 | the tag's loop gives every slot its handler |
| Tdma.TablesAgree | apps/rtdoa_tag/src/main.c:270-292 | separately filled tables agree from slot 2 upward exactly except in slot 31, and slot 0 is never assigned |
| Tdma.HandlersExact | apps/rtdoa_node/src/main.c:260-291 | which slot numbers have which handler, for anchors and tags |
| Tdma.NodeSlotExact | apps/rtdoa_node/src/main.c:109-257 | an anchor in any slot: nothing without a clock, election in slot 31, management in multiples of 12, and in RTDoA slots configuration before queue before request |
| Tdma.TagSlotExact | apps/rtdoa_tag/src/main.c:239-266 | a tag in any slot: only management slots do anything, and they apply a pending configuration even without a clock |
| Tdma.RtdoaNode.NrngSlotTimerCb | apps/rtdoa_node/src/main.c:109-146 | the ranging slot callback is the network's slot step for an anchor |
| Tdma.RtdoaNode.RtdoaSlotTimerCb | apps/rtdoa_node/src/main.c:186-234 | so is the RTDoA slot callback: clock, configuration, management, role, in that order |
| Tdma.RtdoaNode.NmgrSlotTimerCb | apps/rtdoa_node/src/main.c:236-257 | so is the management slot callback |
| Tdma.RtdoaTag.NmgrSlotTimerCb | apps/rtdoa_tag/src/main.c:239-266 | the tag's management slot callback is the slot step for a tag |
| Tdma.NodeCommitApplied | apps/rtdoa_node/src/main.c:186-226 | in every run, after a commit the first RTDoA slot with a clock is silent and applies it, and without another commit every later RTDoA slot in which the master is ready is used |
| Tdma.TagCommitApplied | apps/rtdoa_tag/src/main.c:245-249 | in every run a tag keeps a commit up to its next management slot, which applies it with or without a clock |
| Tdma.SingleTransmitter | apps/rtdoa_node/src/main.c:109-234 | in every run, missed clock packets included, two devices start a request in one slot only in the ranging slot and on superframe numbers that differ modulo 8, so never if nobody goes on unnoticed after a miss; with empty management queues then at most one transmits |
| Tdma.RunInitiator | apps/rtdoa_node/src/main.c:128-134 | after any run without unnoticed misses the ranging slot is opened by a device if and only if it has the clock and the number elected for that superframe |
| Tdma.CollisionIff | apps/rtdoa_node/src/main.c:109-234 | in any state, without assuming agreeing clocks, two devices start requests in one slot if and only if it is the ranging slot and each is elected by the superframe number it holds, which then differ |
| Tdma.Fairness | apps/rtdoa_node/src/main.c:128-129 | in any eight consecutive superframe numbers, across the 8-bit wrap, each number below eight is elected exactly once and no other ever is |
| Tdma.RunFairness | apps/rtdoa_node/src/main.c:109-146 | in any 8m consecutive superframes of any run such an anchor with a number below eight opens exactly m rounds of ranging, any other none |
| TagRanging.ResponseMask | apps/twr_nranges_tdma/src/main.c:186-190 | the loop's mask has exactly the bits from first to last and equals 2^(last+1) - 2^first, within 32 bits |
| TagRanging.RangingNode.constructor | apps/twr_nranges_tdma/src/main.c:316-331 | slot table with and without the survey; the device starts unjoined |
| TagRanging.RangingNode.SlotCb | apps/twr_nranges_tdma/src/main.c:133-200 | the slot callback is the slot step, and a request carries the mask |
| TagRanging.SlotExact | apps/twr_nranges_tdma/src/main.c:133-183 | when exactly a device sends a management frame, listens, asks, applies its configuration or does nothing, and that nothing else changes |
| TagRanging.OneTagAsks | apps/twr_nranges_tdma/src/main.c:169-183 | two tags with distinct slot ids never ask in the same slot, in any state |
| TagRanging.ServedInside | apps/twr_nranges_tdma/src/main.c:180 | within a superframe any NRNG_NTAGS consecutive ranging slots belong to every id exactly once |
| TagRanging.AlwaysServedIff | apps/twr_nranges_tdma/src/main.c:180 | the same holds for all windows, across superframes, if and only if the ranging slots of a superframe are a multiple of NRNG_NTAGS |
| TagRanging.ServedAtBoundary | apps/twr_nranges_tdma/src/main.c:180 | how often an id is served in a window that spans two superframes |
| TagRanging.BoundaryWitness | apps/twr_nranges_tdma/src/main.c:180 | a window across a superframe boundary with two slots for one tag and none for another |
| TagRanging.EveryTagServed | apps/twr_nranges_tdma/src/main.c:144-198 | a ready tag without management frames asks exactly once in every such window |
| TagRanging.LateTagStarves | apps/twr_nranges_tdma/src/main.c:180-183 | a tag whose id is not below NRNG_NTAGS never asks |
| CirShift.Cir.DropFront | apps/listener/scripts/uwbtool.py:148-152 | n rounds of pop and append shift real and imaginary part alike to the left and keep the length |
| CirShift.Cir.DropBack | apps/listener/scripts/uwbtool.py:178-182 | n rounds of pop and insert shift both alike to the right and keep the length |
| CirShift.CirFpidxShift | apps/listener/scripts/uwbtool.py:135-164 | which lists are shifted left, by how much, under which guards, for any offset and any lengths |
| CirShift.CirFpidxShift3 | apps/listener/scripts/uwbtool.py:166-194 | which lists are shifted right, by how much, under which guards, for any offset and any lengths |
| CirShift.AlignedIff | apps/listener/scripts/uwbtool.py:144-162 | the arrays are fully aligned if and only if the offset is an integer within the guard; within the guard less than one sample is left |
| CirShift.ShiftAligns | apps/listener/scripts/uwbtool.py:135-164 | at every unpadded position both arrays hold the same absolute sample |
| CirShift.SameInstant | apps/listener/scripts/uwbtool.py:135-164 | with start times written as rounded first-path offset plus timestamp / 64, samples that end up side by side were taken at the same time |
| CirShift.Shift3Aligns | apps/listener/scripts/uwbtool.py:166-194 | the same for the other routine |
| CirShift.RoutinesAgree | apps/listener/scripts/uwbtool.py:135-194 | both routines put the same samples side by side, a fixed number of positions apart |
| LineSplitter.LineReader.Feed | apps/listener/scripts/listener_pdoa.py:412-416 | one chunk yields exactly the complete lines of old buffer plus chunk; the loop ends because each round uses up one newline |
| LineSplitter.LineReader.ReadLines | apps/listener/scripts/listener_pdoa.py:407-417 | the loop is the chunk-wise fold: feed buffer plus chunk, carry the rest, stop at the empty chunk |
| LineSplitter.GenerateSplits | apps/listener/scripts/listener_pdoa.py:407-429 | that fold, from any newline-free buffer, yields the lines of everything read up to the first empty chunk |
| LineSplitter.EmptyChunkEnds | apps/listener/scripts/listener_pdoa.py:407-429 | the first empty chunk ends the reading, whatever follows |
| LineSplitter.Reconstruct | apps/listener/scripts/listener_pdoa.py:414-416 | lines with their newlines plus the residual buffer are the input |
| LineSplitter.NoNewlines | apps/listener/scripts/listener_pdoa.py:414-416 | neither a line nor the residual buffer contains a newline |
| LineSplitter.Unambiguous | apps/listener/scripts/listener_pdoa.py:414-416 | no other lines and residue make up the same input |
| LineSplitter.SplitAgain | apps/listener/scripts/listener_pdoa.py:411-416 | splitting in two steps with the residue carried over is splitting at once |
| LineSplitter.ChunkingIsInvisible | apps/listener/scripts/listener_pdoa.py:407-429 | the fold over any two cuttings of a stream into non-empty chunks yields the same lines and residue, those of the whole stream, and so it does with the end of file behind |

## Left out

- Sender.Reporter.Send: a write behind the 16 range slots has no meaning in C; the model reports it (`fits`) and stops there, and promises nothing else for that call.
- Printer.PrintMeas: a count beyond 16 reads what lies behind the record; that memory is a parameter.
- Printer.ReadPrinted: the text of an rssi is a parameter, since its float formatting is not modelled; a negative quality reads back as the unsigned 32-bit number it is printed as.
- Printer.DistanceRoundTrip: of the row form only the distance field is modelled; its output as a whole is not claimed to be valid JSON.
- Backhaul.Node.OnReceive: the received length is taken to be at most the buffer, and at least a header's bytes to be in the buffer.
- Backhaul.Node.ListenAcquireAgain: whether a listen ever returns is not claimed; the callback table has no timeout entry.
- Backhaul.Node.LocalSend: a callback that interrupts a send or a turn of the drain loop halfway is not modelled; each of them is one step.
- Backhaul.Node.SetRole: runs keep one role; a change of role in the middle of a run is not an event.
- BackhaulRuns.ListenDeadline: reception times are taken within the window of the listen.
- Stream.StreamExact: packets arrive intact and in order; the result of queueing a packet for transmission is part of the channel's loss.
- Stream.Receiver.TransportCb: a device that sends and receives at once, where both share one buffer, is not modelled; the checksum is an arbitrary function.
- Tdma.SingleTransmitter: transmissions of the PAN slot and answers to a request are not modelled; that a device which hears a clock packet takes over its number is taken from the clock library, which is not part of this model.
- Tdma.RunFairness: each of the superframes is taken to play its ranging slot once and the anchor to hear its clock packet.
- Tdma.RtdoaNode.RtdoaSlotTimerCb: the immediate path of a configuration commit is no event of the network; of a device that stays silent in a slot the model does not say whether it listens.
- TagRanging.RangingNode.SlotCb: slot id and epoch are fields that the PAN and the clock set from outside.
- CirShift.CirFpidxShift: offsets are real numbers, so float rounding is not modelled; shifting an empty list, where the source raises, and a missing receiver, where it returns without doing anything, are not modelled.
- LineSplitter.LineReader.ReadLines: the delimiter is the newline that the source splits at; a list of chunks that ends stands for a reader that waits.
- The frame header `struct _ieee_rng_request_frame_t` is not part of this repository; its 11 bytes follow the initialiser at lib/rtdoa_backhaul/src/rtdoa_backhaul.c:127-135.
- Internals of uwb-core and Mynewt (memory pool, semaphore, radio, CCP, PAN, clock model, transport) are not part of this model; the block geometry is a parameter.
- Conversions from float (range difference, rssi, line of sight, battery, gyro) enter as their integer results, a NaN difference as no value.
- Sensor, battery and USB callbacks, statistics counters and the protobuf output of the backhaul.
- The printer's sensor and GPS part: unpadded fractions and float rounding.
- The second radio, angle of arrival, and the receiver start on the immediate path of the two-way ranging node.
- The split of streaming slots with concurrent ranging, where comment and condition disagree (apps/streaming/src/main.c:354-359).
- Low-battery mode and the sensor retry loop of the tag, which need not end.
- Bluetooth, firmware update, `tdoa_tag`, `twr_aloha` and `twr_tag_tdma`: glue around library calls.
- The listener firmware, plotting, the Tk interface, sockets and serial ports.
