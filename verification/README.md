# RDMA load generator, packet generator and ping-pong: model and proofs

Dafny model of the three protocol cores of the repository and proofs of what they
guarantee. Verify everything with `dafny verify dfyconfig.toml`.

**The request ring (`Rdma*.dfy`).** The client keeps a ring of slots, posts one RDMA
request per free slot, frees a slot per completion, and sends DONE when its loop budget is
used up; the passive server sends its memory regions, waits for DONE and disconnects.
`RdmaClient` and `RdmaServer` give the handlers as functions on a value and as classes that
update their fields in place, each method proved equal to its function. `RdmaSystem` joins
one client and one server by a reliable connection and lets every event happen in every
order, with refused posts and failed completions. `RdmaSafety`, `RdmaWorker` and
`RdmaProgress` hold the theorems.

**The packet generator (`Pktgen*.dfy`).** `PktgenOdometer`, `PktgenFlows` and
`PktgenHeaders` are the walks of the header fields and their closed forms over whole runs,
`PktgenIn6` the random IPv6 destinations; `PktgenFlowModes`, `PktgenHeaderLaws` and
`PktgenSetup` add flows that are random or absent, every field in every mode, and what setup
gives a run to start from;
`PktgenLabels` and `PktgenStack` the VLAN/MPLS commands, the bytes built from them and a
decoder (802.1Q tags as in IEEE 802.1Q clause 9, the bottom-of-stack bit as in section 2.1
of RFC 3032), and `PktgenTags` goes from the commands of a whole history to the tags and
labels of a frame; `PktgenPayload` and `PktgenFrame` fragments, frame length and length
fields; `PktgenPackets` what the packets of a run of builds carry, and `PktgenWire` their
bytes with the header checksum (section 1 of RFC 1071) and a receiver that reads them;
`PktgenTransmit`, `PktgenSequence`, `PktgenSequenceLaws`, `PktgenPacing` and `PktgenBuilds`
the transmit loop with clones, retries, drops and lack of memory; `PktgenOutcomes` says
which outcomes of attempts use up a clone, `PktgenSent` what each packet sent carries, and
`PktgenCounters` what is counted and when a run stops; `PktgenScheduler` has the choice
between devices and how fair it is. The `*Device` modules and `PktgenSkb` are the same state as classes
updated in place, with the loops of the source, proved equal to the functions.

**Ping-pong (`PingPong*.dfy`).** Two peers that send in turn over a lossless channel, with
completions in any order, and the text record of addresses that they exchange.
`PingPongLoop` shows that the completion loop of one process is a run of that system, and
`PingPongEvents` adds event mode, in which the processes sleep between polls.

`Basics` has the word sizes, `ModArith` has division facts. `Quot(x, m)` and `Rem(x, m)` are
`x / m` and `x % m` (`QuotIsDivision`, `RemIsModulo`), written by repeated subtraction so
that proofs stay linear.

## Assumptions

- A handler is atomic: each worker has one event loop in one thread.
- A completion is reported once, and only for something that was posted; a send waits until
  the peer has a receive posted.
- The client's handler for ESTABLISHED runs before the client reaps the regions; exactly
  then nothing goes wrong (`LostIffReapedEarly`). The laws about a worker's counters need no
  order of establishment.
- The client is active and the server passive, as the repository's own README starts them.
- A refused send or receive of a control message ends the process, so such refusals do not
  occur in a run; refused RDMA requests do, at every post.
- A completion queue reports an event when a completion comes that was asked for, and then
  no other until the next is asked for.
- The settings of a packet generator device do not change between start and stop.
- Random numbers, clock readings, memory and the answers of queue and driver are
  parameters, so the theorems hold for all of them.

## What the proofs show about the code

- If the client reaps the regions before its handler for ESTABLISHED has run, they are lost
  for good: the client never posts a request (`LostIffReapedEarly`,
  `EarlyServerIsWrongState`). That the server is established first does no harm by itself
  (`EarlyServerMayBeInTime`).
- More regions than the limit leave a client connected and idle for ever, while a number of
  regions that differs from its own ring within the limit ends its process
  (`RegionsDecide`).
- The inclusive address walk leaves its range when the maximum is 255.255.255.255 and the
  minimum is not 0.0.0.0 (`WalkStaysInRange`).
- Drawing a random IPv4 destination never ends if the range lies in the zero net, in the
  loopback net or among the multicast addresses, and can end otherwise (`DrawingCanEnd`).
- Random IPv6 destinations lie between minimum and maximum exactly if all bits of the
  minimum are set in the maximum (`In6DrawsInRange`).
- `f` fragments conserve the payload exactly if the last share and the remainder fit a page;
  otherwise there is one fragment more, and more bytes than asked for (`FillConserves`,
  `LastFragmentOverflows`).
- A device stopped in the middle of a sequential flow and started again first sends the rest
  of that flow to its old destination (`SetupKeepsFlow`, `NthFlowRestarted`).
- The wait for the departure comes before the driver, so an attempt moves the departure
  whatever becomes of its packet, if the last one was sent (`XmitMoves`). A turn that does
  not move it is followed by another of the same device: a device without a delay keeps the
  thread as long as it runs, and one that was refused and is chosen again keeps it until a
  packet is sent (`NoDelayKeepsThread`, `RefusedKeepsThread`).
- A random flow has one packet more than a sequential one: `lflow` + 1 (`RandomFlowsOpen`).
- A run with one source address carries the configured one exactly if the header still holds
  it when the run starts (`SourceIsConfigured`): after a run that walks several sources, the
  next run with one goes on from where the walk has stopped (`StaleSource`). And without a
  configured source a walk of several sources adds its offsets to zero, not to the
  interface's address, of which only the first byte stays (`NthSourceMac`).
- A minimum size of 0 stands for the headers and the tags and labels of the last run, not of
  the one that starts (`NthSizeIs`).
- Every IPv4 header verifies (`HeaderVerifies`). IPv6 packets carry a UDP checksum of 0 like
  those of IPv4, which section 8.1 of RFC 2460 does not allow.
- A label is read as its value exactly if it is written with eight digits or is zero; a
  shorter one is read as sixteen times its value (`RunReadAsItsValue`,
  `ListReadAsItsValues`, `ShortLabelIsShifted`).
- A decimal argument longer than its command expects is cut, not refused: `vlan_id 10000`
  sets 1000 (`NumberRead`, `LongIdIsCut`).
- With clones, a packet consumed without being sent uses up a clone exactly if the last
  outcome before it that was not a consumption, at first one left by an earlier run, was a
  packet sent. After a refusal it uses up nothing (`RecordIsOutcomes`,
  `ConsumedAfterRefusal`, `DropBreaksStep`).
- A run uses only queues of the configured range exactly if the queue it finds is at least
  the minimum less one, and not 65535 unless the minimum is 0 (`QueuesStayInRange`). A new
  device finds queue 0, so with a minimum of 2 or more it begins below the range
  (`NewDeviceBelowMinimum`).
- The comments of `struct pktgen_dev` call the upper ends of the address ranges exclusive;
  in order, the walks include them, and at random they do not. The model follows the code.

## Model

| member | source | states |
|---|---|---|
| RdmaRing.PostFromTakesLowestFree | client/rdma.c:89-112 | A posting pass takes exactly the lowest free slots, clears their flags and no others, and stops early only at a refusal |
| RdmaRing.PostAllCount | client/rdma.c:114-135 | A pass over the whole ring posts the smaller of the free slots and the posts the device accepts |
| RdmaClient.ClientConnection.PostReadWrite | client/rdma.c:89-135 | The slot loop, with flags and counter updated in place, posts what the pass specification says, in slot order, and returns their number |
| RdmaClient.ClientConnection.OnEstablished | client/rdma.c:285-293 | The handler's new state and message, in both modes |
| RdmaClient.ClientConnection.OnRegions | client/rdma.c:153-183 | The MR branch with its wrong-state, too-many and mismatch exits; the peer's regions are copied into the ring before anything is posted |
| RdmaClient.ClientConnection.FinishOp | client/rdma.c:195-246 | The branch for a finished request: slot freed, overflow check, DONE or another pass, attempts counted |
| RdmaClient.ClientConnection.HandleCompletion | client/rdma.c:147-264 | One turn of the polling loop updates connection and counters exactly as the event specification says, for every completion and every state |
| RdmaClient.OutcomeTells | client/rdma.c:147-264 | Each exit of the handler (failed status, wrong state, too many regions, mismatch, overflow) is taken in exactly one situation, and the exits that only log change nothing |
| RdmaServer.OnlyPassiveSends | server/rdma.c:317-326 | A server sends its regions when it is connected if and only if it is passive |
| RdmaServer.ServerConnection.PostSendMr | server/rdma.c:44-52 | The MR message holds every registered region of the ring in order |
| RdmaServer.ServerConnection.OnConnect | server/rdma.c:317-326 | Establishment in both modes: a passive server sends its regions and is connected, an active one is connected |
| RdmaServer.ServerConnection.HandleCompletion | server/rdma.c:130-232 | The passive half of the server's handler, branch by branch, with its message and operation counters |
| RdmaSystem.PostKeepsRing | client/rdma.c:89-135 | Posting keeps flags, counter and outstanding requests in agreement |
| RdmaSystem.OpCompletedKeepsRing | client/rdma.c:195-242 | A completion keeps them in agreement, never trips the overflow check, and sends DONE exactly when the budget is used up, this was the last request and none has failed |
| RdmaSystem.InvNext | client/rdma.c:137-266 | Every step of either side, in any order, keeps the joint invariant over both programs |
| RdmaSystem.InvAlways | server/rdma.c:120-234 | The joint invariant holds after every run |
| RdmaSafety.DoneOnlyWhenQuiet | client/rdma.c:195-242 | Over every interleaving, refused post and failed completion: DONE at most once, only with a used-up finite budget and all posted requests completed with success; disconnection only after it; no wrong-state branch and no die() on either side |
| RdmaSafety.NothingAfterDone | client/rdma.c:207-216 | After DONE no request and no second DONE is ever posted |
| RdmaSafety.RegionsDecide | client/rdma.c:153-183 | In every run: the client has started if and only if it has reaped the regions and the rings have one size within the limit; its process has ended if and only if it has reaped them and the sizes differ within the limit; with more regions than the limit it stays connected and alive; unless started it has posted neither a request nor DONE |
| RdmaSafety.PostsOnlyToMatchingRing | client/rdma.c:159-170 | Requests are posted only between rings of one size within the limit, and none by a client whose process has ended |
| RdmaSafety.RingAccounting | client/rdma.c:355-358 | In every reachable state the redundant counter is the number of free slots and a slot is taken exactly when one request for it is unreaped or failed |
| RdmaSafety.BuffersNeverShared | client/rdma.c:66-87 | An outstanding request for slot i names local region i and the peer's i-th registered region; two outstanding requests share no buffer on either side |
| RdmaSafety.LostIffReapedEarly | client/rdma.c:153-183 | Over every interleaving, whichever side is established first: no wrong-state branch is reached, and the joint invariant holds, if and only if the client has not reaped the regions before its own ESTABLISHED handler; otherwise they are lost and the client never posts anything |
| RdmaSafety.InTimeRuns | client/rdma.c:153-183 | A run in any order of establishment whose regions are reaped in time is a run that all other laws are about |
| RdmaSafety.EarlyServerIsWrongState | client/rdma.c:180-183 | A run, whatever the setup, in which the regions are lost |
| RdmaSafety.EarlyServerMayBeInTime | client/rdma.c:153-183 | A run in which the server is established first and the client starts |
| RdmaSafety.WorkIsBounded | client/rdma.c:195-242 | Whatever is refused or fails, with R slots and budget L at least 1: at most R + L - 1 requests are posted, and DONE follows at least L completed ones |
| RdmaServer.PassiveAlike | server/rdma.c:130-232 | A passive client answers every completion as a passive server does, with the same counters, and never posts a request |
| RdmaWorker.ClientIsCounted | client/rdma.c:147-264 | In any order of establishment each step of a connection moves each counter of its worker by exactly what it stands for: read and write attempts and successes apart, regions and DONE sent and received |
| RdmaWorker.ServerIsCounted | server/rdma.c:130-232 | The same for the counters of the server's worker |
| RdmaWorker.CountersAreExact | client/rdma.c:147-264 | Over any run of a pair of workers with any number of connections, every counter of both is the sum over the connections of what it stands for, reads and writes apart, and the others are 0 |
| RdmaWorker.AttemptsMinusSuccesses | client/rdma.c:195-242 | Over any run of a worker with any number of connections, in any order of establishment, attempts minus successes is the unreaped plus failed requests of all of them |
| RdmaProgress.ProgressOp | client/rdma.c:195-242 | In good runs each completion decreases (budget left, outstanding) lexicographically and keeps at least one request outstanding until DONE |
| RdmaProgress.NeverStuck | client/rdma.c:147-264 | Until the last step of a good run some step is enabled |
| RdmaProgress.ExactWork | client/rdma.c:89-135 | With capacity cap, ring R and budget L every order of completions reaches DONE after exactly min(R, cap) + L - 1 completed requests; a complete run has eight more steps and leaves both sides disconnected |
| PktgenOdometer.PortClosedForm | pktgen/pktgen.c:2346-2373 | The port after n steps is min + n mod (max - min) |
| PktgenOdometer.PortCoverage | pktgen/pktgen.c:2346-2373 | Each period visits every port of the half-open range exactly once |
| PktgenOdometer.WalkClosedForm | pktgen/pktgen.c:2376-2390 | The inclusive walk is min + n mod (max - min + 1) when its increment cannot overflow past the minimum |
| PktgenOdometer.WalkStaysInRange | pktgen/pktgen.c:2376-2390 | The inclusive walk stays in its range for ever if and only if the maximum is below 2^32 - 1 or the minimum is 0 |
| PktgenOdometer.WalkCoverage | pktgen/pktgen.c:2445-2457 | Each period visits every value of the inclusive range exactly once |
| PktgenOdometer.OffsetClosedForm | pktgen/pktgen.c:2275-2287 | The MAC offset after n steps is n mod count |
| PktgenOdometer.RandomInHalfOpenRange | pktgen/pktgen.c:2346-2383 | Random walks stay in the half-open range for every draw |
| PktgenOdometer.CarryChainAdds | pktgen/pktgen.c:2289-2298 | The five-byte carry chain is addition of the 32-bit offset modulo 2^40 |
| PktgenOdometer.DistinctOffsetsDistinctMacs | pktgen/pktgen.c:2317-2326 | Distinct offsets give distinct addresses |
| PktgenOdometer.WalkOfMacsIsInjective | pktgen/pktgen.c:2275-2298 | A whole sequential walk repeats no address |
| PktgenFlows.SequentialFlows | pktgen/pktgen.c:2187-2211 | Closed form of sequential flows on a fresh table: slot, destination, flow count, packet count in the slot, and all other slots reset |
| PktgenFlows.SequentialFlowsFrom | pktgen/pktgen.c:2187-2211 | The same from any table in the middle of a flow |
| PktgenFlows.RestartedFlows | pktgen/pktgen.c:2392-2428 | After a restart in the middle of a flow the rest of it goes to its old destination and opens no flow, and the next flows walk on from there; after a complete flow they begin anew in the next slot |
| PktgenFlows.FlowsOpened | pktgen/pktgen.c:2419-2428 | After n packets of sequential flows on a fresh table, nflows is n / lflow rounded up, modulo 2^32 |
| PktgenFlowModes.RandomPacket | pktgen/pktgen.c:2203-2211 | With random flows a packet belongs to the slot drawn; it opens a flow, with the next destination and one packet, or joins the slot's flow and goes where that goes; no other slot changes |
| PktgenFlowModes.NextDestinationIs | pktgen/pktgen.c:2392-2417 | The next destination is the successor, after the last the first; at random, the first draw that is routable |
| PktgenFlowModes.RandomFlowsOpen | pktgen/pktgen.c:2203-2211 | Over every run from a fresh table, a packet opens a flow if and only if the earlier packets of its slot are a multiple of lflow + 1; the count of a slot is the rest of that division plus 1, so never above lflow + 1 |
| PktgenFlowModes.RandomFlowsCounted | pktgen/pktgen.c:2419-2428 | nflows moves by the number of packets that open a flow |
| PktgenFlowModes.OneDestinationPerFlow | pktgen/pktgen.c:2392-2397 | Two packets of a slot between which none opens a flow in it go to one destination |
| PktgenFlowModes.NthWithoutFlows | pktgen/pktgen.c:2398-2417 | Without flows the n-th packet goes to min + n mod (max - min + 1), and no flow is counted |
| PktgenFlowModes.DrawnWithoutFlows | pktgen/pktgen.c:2400-2408 | Without flows a random destination is the first routable draw of that packet |
| PktgenFlowModes.SlotKeepsDestination | pktgen/pktgen.c:2392-2397 | The destination of a slot stays until a packet opens a flow in it |
| PktgenFlowModes.RandomPacketOfIn6 | pktgen/pktgen.c:2203-2211 | An IPv6 packet with random flows is counted in the slot drawn, which begins anew after more than lflow; no destination and no flow is recorded |
| PktgenFlows.DrawingCanEnd | pktgen/pktgen.c:2400-2408 | Drawing a random destination can end if and only if the range is not within the zero net, the loopback net or the multicast addresses; a destination it ends with is routable and in the range |
| PktgenHeaders.SetupStarts | pktgen/pktgen.c:2114-2127 | Setup leaves every walk at its first value |
| PktgenHeaders.NthPorts | pktgen/pktgen.c:2346-2373 | The n-th build after setup has ports min + n mod (max - min) |
| PktgenHeaders.NthSourceAndSize | pktgen/pktgen.c:2375-2390 | The n-th build after setup has source and size min + n mod (max - min + 1) |
| PktgenHeaders.SizeStaysInRange | pktgen/pktgen.c:2445-2457 | Random or not, the size stays between the settings over a whole run |
| PktgenHeaders.NthMacs | pktgen/pktgen.c:2275-2326 | The n-th build's addresses are the base with offset (n-1) mod count added by the carry chain |
| PktgenHeaders.KeptBytes | pktgen/pktgen.c:2269-2326 | The first byte of each address and the EtherType never change during a run |
| PktgenHeaders.NthIn6 | pktgen/pktgen.c:2431-2441 | The n-th build's IPv6 destination has the bits common to minimum and maximum and is not above the maximum; it is not below the minimum if all its bits are set in the maximum |
| PktgenIn6.In6Drawn | pktgen/pktgen.c:2436-2441 | The destinations that can be drawn are exactly the addresses between (minimum and maximum) and maximum, bit by bit |
| PktgenIn6.In6DrawsInRange | pktgen/pktgen.c:2436-2441 | Every draw lies between minimum and maximum as 128-bit numbers if and only if all bits of the minimum are set in the maximum |
| PktgenHeaders.NthFlow | pktgen/pktgen.c:2392-2428 | The n-th build of a fresh sequential device: slot, destination, other slots reset, and n / lflow flows opened, rounded up |
| PktgenHeaders.SetupKeepsFlow | pktgen/pktgen.c:2114-2127 | Setup with the same destinations leaves a device that was stopped in a flow in the middle of it |
| PktgenHeaders.NthFlowRestarted | pktgen/pktgen.c:2392-2428 | The n-th build after such a restart, in closed form |
| PktgenHeaders.RunFlows | pktgen/pktgen.c:2461 | The flow table of a run of builds is the flow table's own run |
| PktgenHeaders.QueueExists | pktgen/pktgen.c:2240-2262 | The chosen transmit queue always exists |
| PktgenHeaders.NthQueue | pktgen/pktgen.c:2252-2262 | The n-th build's queue in closed form from whatever queue the run found: below the minimum the queues climb to it, from there they cycle through the range |
| PktgenHeaders.QueuesStayInRange | pktgen/pktgen.c:2252-2262 | All builds of a run use queues of the configured range if and only if the queue found is at least the minimum less one, and not 65535 unless the minimum is 0 |
| PktgenHeaders.NewDeviceBelowMinimum | pktgen/pktgen.c:2252-2262 | A new device, whose queue is 0, uses queue 1 first when the range is 2 to 3 |
| PktgenHeaders.QueueBelowMinimum | pktgen/pktgen.c:2252-2262 | Up to the maximum the queues are taken one by one, also those under the configured minimum |
| PktgenHeaderLaws.NthPortsAre | pktgen/pktgen.c:2346-2373 | Both ports of the n-th build in every mode: the only one, the draw modulo the width, or n modulo the width, plus the minimum |
| PktgenHeaderLaws.NthSourceAndSizeAre | pktgen/pktgen.c:2375-2390 | The IPv4 source and the size of the n-th build in every mode |
| PktgenHeaderLaws.NthMacsAre | pktgen/pktgen.c:2275-2326 | The low five bytes of both addresses of the n-th build in every mode |
| PktgenHeaderLaws.NthQueueIs | pktgen/pktgen.c:2240-2262 | The queue of the n-th build in every mode: the CPU, the draw, the queue found, or the next in order, modulo the number of queues |
| PktgenHeaderLaws.NthDestinationIs | pktgen/pktgen.c:2392-2428 | The IPv4 destination of the n-th build without flows, in order and at random, and with sequential flows |
| PktgenHeaderLaws.NthInItsFlow | pktgen/pktgen.c:2392-2428 | With flows every packet goes to the destination that its slot keeps |
| PktgenHeaderLaws.NthIn6Is | pktgen/pktgen.c:2431-2441 | The IPv6 source never changes in a run, and the destination is the draw if a minimum is set |
| PktgenHeaderLaws.NthSlotIs | pktgen/pktgen.c:2187-2211 | An IPv6 device with sequential flows walks through the slots and opens no flow |
| PktgenSetup.SetupWritesMacs | pktgen/pktgen.c:2031-2037 | After setup the header has the configured destination, and as source the interface's address if none is configured, else what it held |
| PktgenSetup.NthDestinationMac | pktgen/pktgen.c:2031-2037 | The six destination bytes of the n-th build after setup: the configured address, or its first byte and the n-th sum of the carry chain |
| PktgenSetup.NthSourceMac | pktgen/pktgen.c:2031-2037 | The same for the six source bytes |
| PktgenSetup.SourceCommandIsFound | pktgen/pktgen.c:1430-1445 | The src_mac command puts the address where setup finds it and leaves the destination alone |
| PktgenSetup.DestinationCommandKeepsSource | pktgen/pktgen.c:1413-1429 | The dst_mac command leaves the source alone |
| PktgenSetup.SourceIsConfigured | pktgen/pktgen.c:2031-2034 | With one configured source all builds of a run carry it if and only if the header still holds it when the run starts |
| PktgenSetup.StaleSource | pktgen/pktgen.c:2031-2034 | After a run that walks two sources a run with one starts from an address that is not the configured one |
| PktgenSetup.NthSource | pktgen/pktgen.c:2092-2111 | Sources come from the configured range, else they are the interface's address, else 0 |
| PktgenSetup.NthDestination | pktgen/pktgen.c:2113-2114 | Destinations come from the configured range |
| PktgenSetup.NthSizeIs | pktgen/pktgen.c:2085-2119 | Sizes come from the configured range; a minimum of 0 becomes 58 or 78 plus the overhead of the last run, a smaller maximum the minimum |
| PktgenSetup.LimitIs | pktgen/pktgen.c:2017-2029 | A queue limit that exists stays; another becomes the last queue, or 0 when there is none |
| PktgenSetup.NthQueueFromSetup | pktgen/pktgen.c:2017-2029 | Queues are chosen between the limits so reset, from the queue the last run has left |
| PktgenSetup.NthIn6FromSetup | pktgen/pktgen.c:2050-2083 | The IPv6 source is the configured one, else the interface's link address if it has one |
| PktgenHeaderDevice.HeaderDevice.FPick | pktgen/pktgen.c:2187-2211 | Flow choice in place: finished slot reset, slot index moved |
| PktgenHeaderDevice.HeaderDevice.WriteMac | pktgen/pktgen.c:2289-2298 | Five header bytes are written by the carry chain and no other byte changes |
| PktgenHeaderDevice.HeaderDevice.ModPorts | pktgen/pktgen.c:2346-2373 | Both UDP ports take one step of their walks |
| PktgenHeaderDevice.HeaderDevice.ModSource | pktgen/pktgen.c:2375-2390 | The source takes one step of its walk |
| PktgenHeaderDevice.HeaderDevice.ModDestination | pktgen/pktgen.c:2392-2428 | A flow keeps its destination; a new one takes the next, or the first draw that is routable, and is recorded |
| PktgenHeaderDevice.HeaderDevice.ModIn6 | pktgen/pktgen.c:2431-2441 | The IPv6 destination is drawn word by word as specified |
| PktgenHeaderDevice.HeaderDevice.ModSize | pktgen/pktgen.c:2445-2457 | The size takes one step of its walk |
| PktgenHeaderDevice.HeaderDevice.SetCurQueueMap | pktgen/pktgen.c:2240-2262 | The queue moves and is reduced modulo the number of queues |
| PktgenHeaderDevice.HeaderDevice.ModCurHeaders | pktgen/pktgen.c:2266-2462 | All header fields of the device advance in place as the header specification says |
| PktgenHeaderDevice.HeaderDevice.WriteDstMac | pktgen/pktgen.c:1413-1429 | The dst_mac command in place: setting and header bytes |
| PktgenHeaderDevice.HeaderDevice.WriteSrcMac | pktgen/pktgen.c:1430-1445 | The src_mac command in place: setting and header bytes |
| PktgenHeaderDevice.HeaderDevice.WriteAddresses | pktgen/pktgen.c:2031-2037 | Setup's two copies into the header: the interface's address only if no source is configured, and the destination |
| PktgenHeaderDevice.HeaderDevice.SetupInject | pktgen/pktgen.c:2004-2127 | Setup writes addresses, settings and current values in place as specified |
| PktgenLabels.Hex32Arg | pktgen/pktgen.c:717-736 | The digit loop with its early shift, fault and stop, equal to the reader specification |
| PktgenLabels.HexFromFull | pktgen/pktgen.c:723-735 | As many digits as the reader takes are read as their value |
| PktgenLabels.HexFromShort | pktgen/pktgen.c:723-735 | A shorter run is read as sixteen times its value |
| PktgenLabels.RunReadAsItsValue | pktgen/pktgen.c:717-736 | A run of digits of any length is read as its value if and only if it has eight digits or stands for zero |
| PktgenLabels.ListIsRead | pktgen/pktgen.c:806-833 | A list of one to fifteen labels of one to eight digits is read as what its words are read as, with its count, whatever was stored before |
| PktgenLabels.ListReadAsItsValues | pktgen/pktgen.c:806-833 | Such a list is read as the values it stands for if and only if each label has eight digits or is zero |
| PktgenLabels.LabelsRoundTrip | pktgen/pktgen.c:806-833 | One to fifteen labels printed as the command prints them, then any character but a comma, are read back to the same list and count, whatever was stored before |
| PktgenLabels.NoWordAtAll | pktgen/pktgen.c:806-833 | A text that does not begin with a digit leaves no label in force and counts no character as read |
| PktgenLabels.EmptyWordEnds | pktgen/pktgen.c:806-833 | Nor does a list with no digit behind one of its commas, whatever was read before it |
| PktgenLabels.BrokenOffWord | pktgen/pktgen.c:806-833 | A text that ends inside a label is a fault, and no label is in force |
| PktgenLabels.BrokenOffBehindWord | pktgen/pktgen.c:819-823 | So is one that ends right behind a label of eight digits |
| PktgenLabels.ShortLabelIsShifted | pktgen/pktgen.c:717-736 | The label 10 is read as hexadecimal 100 |
| PktgenLabels.SixteenLabelsRefused | pktgen/pktgen.c:827-829 | Sixteen labels, each of one to eight digits, are refused whatever follows; none is in force, all are in the array |
| PktgenStack.ApplyKeepsInv | pktgen/pktgen.c:1501-1636 | Every command keeps: SVLAN only with VLAN, MPLS never with VLAN, ids, priorities and CFI in range, at most fifteen labels |
| PktgenStack.RandomizeKeepsInv | pktgen/pktgen.c:2328-2344 | The per-packet randomisation keeps the same invariant |
| PktgenStack.StackInvAlways | pktgen/pktgen.c:1501-1636 | The invariant holds after any history of commands and builds |
| PktgenStack.NumberRead | pktgen/pktgen.c:763-780 | A run of digits is read as its first maxlen digits, so as the number written if and only if it has no more digits or is zero; the reader faults if and only if the text ends before maxlen digits and a non-digit |
| PktgenStack.VlanIdIsSet | pktgen/pktgen.c:1524-1549 | A vlan_id command sets the number of the first four digits and clears the labels, or removes both tags when it is above 4095 |
| PktgenTags.VlanPIsSet | pktgen/pktgen.c:1551-1564 | What vlan_p sets, from the digit written, and that it needs a VLAN |
| PktgenTags.VlanCfiIsSet | pktgen/pktgen.c:1566-1579 | What vlan_cfi sets |
| PktgenTags.SvlanIdIsSet | pktgen/pktgen.c:1581-1606 | svlan_id sets the number of the first four digits and clears the labels, or removes both tags when it is too large or there is no VLAN |
| PktgenTags.SvlanPIsSet | pktgen/pktgen.c:1608-1621 | What svlan_p sets, and that it needs an SVLAN |
| PktgenTags.SvlanCfiIsSet | pktgen/pktgen.c:1623-1636 | What svlan_cfi sets |
| PktgenTags.LabelsAreSet | pktgen/pktgen.c:1501-1522 | A list of labels replaces the one in force and removes both tags |
| PktgenTags.BuildRandomises | pktgen/pktgen.c:2328-2344 | A build draws anew exactly the labels in force with their bottom bit set and the ids that are random and on, within their bits, and keeps everything else |
| PktgenTags.FlagsDecide | pktgen/pktgen.c:2328-2344 | Over every history the flags set last decide in each build which id is drawn |
| PktgenTags.LabelsNotDrawn | pktgen/pktgen.c:2328-2344 | Random labels that are turned off stay off while no labels are written |
| PktgenTags.StillSet | pktgen/pktgen.c:1524-1636 | Over every history a tag field has the value last written and accepted, unless an event since may have changed it |
| PktgenTags.CommandsRoundTrip | pktgen/pktgen.c:1524-1636 | From commands to frame: the decoder finds exactly the two tags, ids, priorities and CFIs, last written and accepted |
| PktgenTags.BothTagsReachable | pktgen/pktgen.c:1581-1606 | Two commands turn both tags on |
| PktgenTags.LabelCommandRoundTrip | pktgen/pktgen.c:1501-1522 | From the mpls command to the frame: the decoder finds the labels written, and no tag |
| PktgenStack.LongIdIsCut | pktgen/pktgen.c:1524-1549 | vlan_id 10000 sets 1000 |
| PktgenStack.OrIsSum | pktgen/pktgen.c:2565-2569 | With fields in range the shift-and-or of a tag is their sum, so no field overlaps another |
| PktgenStack.OverheadIsExact | pktgen/pktgen.c:2174-2180 | The overhead used for the length fields is the number of stack bytes really built |
| PktgenStack.StackRoundTrip | pktgen/pktgen.c:2695-2728 | From any history of commands and builds, a decoder following EtherType, 802.1Q tags and the MPLS bottom-of-stack bit recovers exactly the configured tags and labels and finds the start of the IP header |
| PktgenStackDevice.StackDevice.GetLabels | pktgen/pktgen.c:806-833 | The label loop with all its exits, in place |
| PktgenStackDevice.StackDevice.NumArg | pktgen/pktgen.c:763-780 | The decimal reader's loop returns the length and number of the reader specification, which NumberRead determines |
| PktgenStackDevice.StackDevice.IfWrite | pktgen/pktgen.c:1501-1636 | Each stack command changes the device as the command specification says and keeps the invariant |
| PktgenStackDevice.StackDevice.ModStack | pktgen/pktgen.c:2328-2344 | Labels and ids are randomised in place as specified |
| PktgenStackDevice.StackDevice.MplsPush | pktgen/pktgen.c:2555-2563 | Every label is written with its bottom bit clear, the last with it set |
| PktgenStackDevice.StackDevice.PushStack | pktgen/pktgen.c:2695-2714 | EtherType and stack bytes are appended in the specified order |
| PktgenPayload.ShareFits | pktgen/pktgen.c:2597-2600 | The per-fragment share never exceeds a page and the fragment loop ends for every input, also with shares of zero bytes |
| PktgenPayload.FillConserves | pktgen/pktgen.c:2580-2624 | The bytes are conserved, in the number of fragments asked for and each within a page, if and only if the last share and the remainder fit a page; otherwise there is exactly one fragment more and the payload is page minus remainder bytes longer |
| PktgenPayload.FragmentSizes | pktgen/pktgen.c:2580-2624 | What is above n pages is linear, each fragment but the last has an n-th of the rest, the last its share and the remainder |
| PktgenPayload.WithoutPage | pktgen/pktgen.c:2603-2611 | Without a page there are no fragments, and only what is above n pages is there |
| PktgenPayload.LoopConserves | pktgen/pktgen.c:2601-2624 | The same for the fragment loop alone |
| PktgenPayload.LastFragmentOverflows | pktgen/pktgen.c:2580-2624 | 69631 bytes in 17 fragments become 18 fragments with 73711 bytes |
| PktgenSkb.Skb.AppendFrags | pktgen/pktgen.c:2601-2624 | The fragment loop appends the specified fragments and adds their sizes to both lengths of the buffer |
| PktgenSkb.Skb.FillFrags | pktgen/pktgen.c:2583-2624 | Linear part first, then the fragments |
| PktgenSkb.Skb.Finalize | pktgen/pktgen.c:2571-2635 | Magic number, sequence number, time of day and payload: the buffer's header fields, lengths and fragments are those specified |
| PktgenFrame.FillPacket | pktgen/pktgen.c:2637-2768 | A build fails if and only if there is no memory, stamps the current number, and advances the headers even when it fails |
| PktgenFrame.FrameLength | pktgen/pktgen.c:2730-2760 | The frame is max(size, 58 + overhead) bytes for IPv4 and max(size, 78 + overhead) for IPv6 if and only if the payload length is below 2^31 |
| PktgenFrame.LengthFields | pktgen/pktgen.c:2843-2879 | IP and UDP length fields agree with the bytes that follow their headers if and only if these fit in 16 bits |
| PktgenFrame.PacketDecodes | pktgen/pktgen.c:2695-2728 | Any built packet decodes to the tags and labels in force |
| PktgenFrame.BuildsRunHeaders | pktgen/pktgen.c:2660-2661 | A run of builds, failed ones included, is a run of the header walks |
| PktgenFrame.NthFrame | pktgen/pktgen.c:2730-2760 | The n-th build of a run has min + n mod (max - min + 1) bytes, or the smallest possible frame |
| PktgenFrameDevice.FrameDevice.SetPktOverhead | pktgen/pktgen.c:2174-2180 | The overhead is the size of the configured stack |
| PktgenFrameDevice.FrameDevice.SetupRun | pktgen/pktgen.c:2904-2935 | A run starts with reset walks and the overhead of the configured stack |
| PktgenFrameDevice.FrameDevice.FillBuffer | pktgen/pktgen.c:2730-2760 | Room for the headers, the signed payload length with its minimum, and the payload in the buffer |
| PktgenFrameDevice.FrameDevice.FillPacket | pktgen/pktgen.c:2637-2768 | The device builds the specified packet and advances in place as specified, with and without memory |
| PktgenPackets.FromHeaders | pktgen/pktgen.c:2724-2754 | A packet has the addresses, ports and queue of the headers it was built from, each in its own field, the identification, the magic number and the time of day |
| PktgenPackets.PacketCarries | pktgen/pktgen.c:2637-2768 | The packet of the n-th build of a run, whatever builds failed before, carries the n-th value of every field that is walked and the draw of every random one: ports, IPv4 source and destination, IPv6 addresses, all bytes of both MAC addresses, queue; the IPv4 packets before it as its identification; the time of day; and its length |
| PktgenPackets.OneFlowOneDestination | pktgen/pktgen.c:2392-2397 | With random flows the packets of two builds of one slot go to one destination if no build of that slot from the first to the second opens a flow |
| PktgenPackets.RestGoesToOldDestination | pktgen/pktgen.c:2392-2397 | After a restart in the middle of a sequential flow its remaining packets go to its old destination |
| PktgenPackets.NthIpId | pktgen/pktgen.c:2748-2749 | The identification after n builds is the first plus the packets made, modulo 2^16 |
| PktgenPackets.PacketCarriesSettings | pktgen/pktgen.c:2004-2127 | The packet of the n-th build after setup carries the settings: the configured destination address, the configured source or the interface's, ports and IP addresses |
| PktgenPackets.PacketCarriesStack | pktgen/pktgen.c:2695-2728 | The packet of the n-th build decodes to the tags and labels in force at that build |
| PktgenPackets.NthStack | pktgen/pktgen.c:2328-2344 | Without random labels and ids these are the tags and labels the run began with |
| PktgenWire.FoldIs | pktgen/pktgen.c:2753-2754 | The folded ones' complement sum is the residue modulo 65535, with 65535 for 0 of a sum that is not 0 |
| PktgenWire.OnlyChecksumVerifies | pktgen/pktgen.c:2753-2754 | A header with checksum c verifies if and only if c is the checksum modulo 65535 |
| PktgenWire.ChangeIsNoticed | pktgen/pktgen.c:2753-2754 | Any change of one header word is noticed, unless it takes 0 for 65535 or the other way round |
| PktgenWire.HeaderVerifies | pktgen/pktgen.c:2741-2754 | Every IPv4 header built verifies |
| PktgenWire.PacketIsReceived | pktgen/pktgen.c:2716-2768 | A receiver that follows tags and labels, checks the IPv4 checksum and reads IP, UDP and generator header from the bytes finds each field of the packet, for IPv4 and IPv6, whatever the payload |
| PktgenWire.WordsTellAddress | pktgen/pktgen.c:2870-2871 | The eight words received tell the IPv6 address |
| PktgenTransmit.TurnIsXmit | pktgen/pktgen.c:3205-3298 | Recording what a run does changes nothing: the device moves as pktgen_xmit moves it |
| PktgenTransmit.BeginBegins | pktgen/pktgen.c:2919-2928 | Starting resets number, counters, buffer and clock, whatever lastOk and the clone counter were |
| PktgenSequence.TurnKeepsInv | pktgen/pktgen.c:3228-3286 | Every attempt keeps the laws of numbers, buffers, clones and bytes |
| PktgenSequence.InvAlways | pktgen/pktgen.c:3228-3286 | They hold in every run |
| PktgenSequenceLaws.SequenceLaw | pktgen/pktgen.c:3228-3286 | Under any mix of outcomes a packet carries the number of the first one sent from its buffer; each buffer given up was sent, or consumed while the last outcome that was not a consumption was OK, max(clone_skb, 1) times together; sofar and tx_bytes are the packets and bytes sent |
| PktgenSequenceLaws.NumberedInOrder | pktgen/pktgen.c:2629-2630 | With clone_skb at most 1 the k-th packet sent carries k modulo 2^32, whatever BUSY, LOCKED, DROP and out-of-memory outcomes came between |
| PktgenSequenceLaws.InStepIs | pktgen/pktgen.c:3228-3243 | The number compared with is (1 + c * (k / c)) modulo 2^32 |
| PktgenSequenceLaws.ClonesInStep | pktgen/pktgen.c:3228-3286 | With c clones the k-th packet carries 1 + c * (k / c) throughout if and only if the record has every earlier buffer wasted never or c times (once the current buffer has been sent) |
| PktgenSequenceLaws.ClonesWithoutDrops | pktgen/pktgen.c:3228-3286 | Without DROP, CN and POLICED each buffer but the last is sent exactly c times and the packets sent are c for each of them plus those of the last |
| PktgenSequenceLaws.DropBreaksStep | pktgen/pktgen.c:3272-3276 | With two clones, sent, dropped, sent: the second packet carries 2 and not 1, from any start |
| PktgenOutcomes.RecordIsOutcomes | pktgen/pktgen.c:3228-3286 | The record of each buffer is what the attempts say: how many of them sent it, and how many consumed it while the last outcome that was not a consumption was OK |
| PktgenOutcomes.ConsumedAfterRefusal | pktgen/pktgen.c:3272-3286 | A packet consumed after a refused attempt uses up neither a clone nor a number |
| PktgenOutcomes.ClonesUsedUp | pktgen/pktgen.c:3228-3286 | Each buffer but the last was sent or wasted by exactly max(clone_skb, 1) of the attempts |
| PktgenOutcomes.InStepIffWastedWhole | pktgen/pktgen.c:3228-3286 | With c clones the k-th packet carries 1 + c * (k / c) throughout if and only if the attempts have wasted every earlier buffer never or c times (once the current buffer has been sent) |
| PktgenPacing.XmitKeepsCount | pktgen/pktgen.c:3291-3297 | With a count set sofar never exceeds it, and a device stopped by it has sofar equal to it |
| PktgenPacing.NeverAboveCount | pktgen/pktgen.c:3291-3297 | The same over every run |
| PktgenPacing.RunIsPaced | pktgen/pktgen.c:2131-2172 | With a finite delay and waits that are not interrupted, next_tx is the start plus one delay per wait, and the k-th packet (k at least 2) leaves no earlier than the start plus k - 2 delays, over every mix of outcomes |
| PktgenPacing.SentWhenDue | pktgen/pktgen.c:2131-2172 | A wait that is not interrupted ends with a reading that is not before the departure, and the packet is sent after it |
| PktgenBuilds.BuildsAreARun | pktgen/pktgen.c:3228-3243 | However often packets are repeated, dropped or refused, the builds take the headers through their walks one step at a time |
| PktgenBuilds.FieldsFollowBuilds | pktgen/pktgen.c:3228-3243 | After any attempts sizes, ports, sources, MAC addresses, queues and flows stand at the step given by the number of builds |
| PktgenSent.HeldIsLastMade | pktgen/pktgen.c:3228-3243 | In every run the buffer a device holds is that of its last build |
| PktgenSent.SentCarries | pktgen/pktgen.c:3205-3298 | After any drops, refusals, waits and failed builds, the packet an attempt sends carries the values of the last build, so each walked field stands at the step given by the number of builds |
| PktgenSent.EveryPacketCarries | pktgen/pktgen.c:3205-3298 | The same of every packet in the record of a run |
| PktgenSent.SentCarriesSettings | pktgen/pktgen.c:3205-3298 | And they are the values of the settings that setup found |
| PktgenSent.SentCarriesStack | pktgen/pktgen.c:3205-3298 | And the tags and labels of the start, unless these are drawn |
| PktgenSent.SentIsReceived | pktgen/pktgen.c:3205-3298 | And a receiver reads them from the bytes |
| PktgenSent.ClonesAreEqual | pktgen/pktgen.c:3228-3260 | All packets sent from one buffer are one packet |
| PktgenCounters.ErrorsCounted | pktgen/pktgen.c:3270-3286 | errors is the number of attempts with a packet that was consumed without being sent or met an unknown return value, modulo 2^64; refusals are not errors |
| PktgenCounters.BuffersCounted | pktgen/pktgen.c:3241-3243 | allocated_skbs grows by the number of buffers the run has built |
| PktgenCounters.RunsUntil | pktgen/pktgen.c:3214-3297 | A device runs if and only if its link has always been up and its count, if any, is not reached; once stopped it holds no buffer |
| PktgenCounters.NeverSends | pktgen/pktgen.c:3220-3226 | With the delay that means never a run builds and sends nothing |
| PktgenCounters.DueAfterNever | pktgen/pktgen.c:3220-3226 | And the device is due again after 2^64 - 1 nanoseconds |
| PktgenCounters.FailedBuild | pktgen/pktgen.c:3234-3240 | A failed build leaves no buffer and a clone counter as before if the last packet was sent, else one lower, modulo 2^32 |
| PktgenCounters.BuildForgetsCount | pktgen/pktgen.c:3241-3243 | What the clone counter was makes no difference once a build succeeds |
| PktgenTransmitDevice.TransmitDevice.Run | pktgen/pktgen.c:2904-2935 | Starting a device resets it as specified and leaves lastOk and the clone counter alone |
| PktgenTransmitDevice.TransmitDevice.StopDevice | pktgen/pktgen.c:3070-3088 | Stopping frees the buffer and clears running |
| PktgenTransmitDevice.TransmitDevice.Spin | pktgen/pktgen.c:2131-2172 | The wait ends with the first clock reading that is not before the departure, or with the last one if it is interrupted, and the next departure is one delay later |
| PktgenTransmitDevice.TransmitDevice.CountClone | pktgen/pktgen.c:3228-3229 | The short-circuit of the rebuild condition: the clone counter moves only behind a buffer that was last sent |
| PktgenTransmitDevice.TransmitDevice.RebuildPacket | pktgen/pktgen.c:3230-3243 | A new packet, or the out-of-memory exit with its decrement |
| PktgenTransmitDevice.TransmitDevice.Account | pktgen/pktgen.c:3262-3286 | All outcomes of the queue and the driver |
| PktgenTransmitDevice.TransmitDevice.Xmit | pktgen/pktgen.c:3205-3298 | One attempt changes the device exactly as the specification of pktgen_xmit says |
| PktgenScheduler.NextToRun | pktgen/pktgen.c:3090-3106 | The loop finds the running device due first, the earliest in the list among equals, and none exactly when none runs |
| PktgenScheduler.XmitMoves | pktgen/pktgen.c:3246-3286 | An attempt with a packet on a device that was last sent moves its departure by exactly one delay, whatever queue and driver do; any other attempt leaves it |
| PktgenScheduler.ThreadRunIsSchedule | pktgen/pktgen.c:3314-3331 | The departure times of a thread whose devices keep running are a schedule, over every mix of outcomes |
| PktgenScheduler.ScheduleIsDetermined | pktgen/pktgen.c:3090-3106 | The delays, the first departure times and which attempts move a departure determine every turn and every departure |
| PktgenScheduler.StillFirst | pktgen/pktgen.c:3090-3106 | A turn that leaves the departure where it was is followed by another turn of the same device |
| PktgenScheduler.NoDelayKeepsThread | pktgen/pktgen.c:3090-3106 | A device without a delay, once chosen, is chosen in every later turn |
| PktgenScheduler.RefusedKeepsThread | pktgen/pktgen.c:3262-3286 | A device that was refused and is chosen again is chosen in every turn until a packet is sent, however many turns that takes |
| PktgenScheduler.Fair | pktgen/pktgen.c:3090-3106 | Between two consecutive turns of device i, over every mix of outcomes, the departure of device j moves at most d_i / d_j + 1 times |
| PktgenScheduler.FairTurns | pktgen/pktgen.c:3090-3106 | If each turn of j moves its departure, j has at most d_i / d_j + 1 turns between two consecutive turns of i |
| PktgenScheduler.EachTurnOfSteady | pktgen/pktgen.c:3246-3286 | Each turn of a device that was last sent and is never refused moves its departure, also when its packets are dropped |
| PktgenScheduler.SpreadStays | pktgen/pktgen.c:3090-3106 | Once the departure times are within the largest delay they stay so |
| PktgenScheduler.NeverFarAhead | pktgen/pktgen.c:3090-3106 | From its first turn on a device is never due more than its own delay after any other, whatever the start times |
| PktgenScheduler.ProportionalShare | pktgen/pktgen.c:3090-3106 | Of devices that start together the departures move in inverse proportion to their delays, to within one delay |
| PingPong.NextKeepsInv | pingpong/uc_pingpong.c:766-847 | Every step of either peer or the channel keeps the joint invariant and does exactly one unit of work |
| PingPong.InTurn | pingpong/uc_pingpong.c:745-759 | Client posts minus server posts is always 0 or 1, each side has at most one unfinished send, nothing is lost and no post is refused |
| PingPong.PendingIsOwed | pingpong/uc_pingpong.c:838-846 | pending is exactly the set of events still owed, on both sides |
| PingPong.QueueBounds | pingpong/uc_pingpong.c:816-825 | 1 <= routs <= rx_depth, routs is the receives posted or unreaped, a receive is there for every message on its way, and the completion queue cannot overflow |
| PingPong.NeverStuck | pingpong/uc_pingpong.c:766-847 | No unfinished state is stuck; a finished one has scnt = rcnt = iters on both sides and nothing left to do |
| PingPong.Agreement | pingpong/uc_pingpong.c:766-847 | Every interleaving ends after exactly 8 * iters steps with scnt = rcnt = iters on both sides |
| PingPongPeer.PingPongPeer.constructor | pingpong/uc_pingpong.c:745-759 | The state at the head of the loop, for client and server |
| PingPongPeer.PingPongPeer.PostRecv | pingpong/uc_pingpong.c:477-497 | The posting loop accepts as many receives as there is room for and returns their number |
| PingPongPeer.PingPongPeer.HandleCompletion | pingpong/uc_pingpong.c:810-846 | One completion changes the peer in place exactly as the specification says; a failed status and an unknown work id end the process |
| PingPongPeer.PingPongPeer.ReapBatch | pingpong/uc_pingpong.c:804-846 | The loop over the completions of one poll, which stops when the peer gives up, leaves the peer as ReapAll says, which BatchIsReaps shows to be that many steps of the system |
| PingPongPeer.PingPongPeer.CompletionLoop | pingpong/uc_pingpong.c:766-850 | The outer loop over successive polls leaves the peer as Loop says, which LoopIsRun shows to be a run of the system |
| PingPongLoop.BatchIsReaps | pingpong/uc_pingpong.c:804-846 | Handling the queued completions of one poll is that many possible steps of the two-peer system, keeps its invariant and leaves the other peer alone |
| PingPongLoop.OthersAreOutside | pingpong/uc_pingpong.c:766-804 | Whatever else happens in the system between two polls changes a peer only by arrivals and completed sends |
| PingPongLoop.LoopIsRun | pingpong/uc_pingpong.c:766-850 | The whole loop of one process, whatever happens between its polls, is a run of the system each of whose steps is possible: it does not give up, and when it ends scnt = rcnt = iters |
| PingPong.PostRecvIs | pingpong/uc_pingpong.c:477-497 | Of n receives as many are posted as there is room for |
| PingPong.RefillFails | pingpong/uc_pingpong.c:816-825 | Replacing receives ends the process if and only if there is no room for those it takes to be missing; otherwise the queue is full again |
| PingPongLoop.BadCompletionEnds | pingpong/uc_pingpong.c:804-836 | A failed status or an unknown id ends the process: nothing is counted, struck off or sent for it, and nothing after it is handled |
| PingPongEvents.NoLostWakeUp | pingpong/uc_pingpong.c:766-804 | In event mode a process that sleeps without an event has nothing on its queue and has asked for the next event, in every interleaving; it takes no more events than completions came |
| PingPongEvents.NeverAsleepForEver | pingpong/uc_pingpong.c:766-850 | Until both processes are over some move is possible, so they never wait for each other |
| PingPongEvents.EventsAgree | pingpong/uc_pingpong.c:766-850 | Every run in event mode ends after at most 24 * iters moves with scnt = rcnt = iters on both sides |
| PingPong.FinishedHasReapedAll | pingpong/uc_pingpong.c:766-804 | A finished peer has no completion waiting, so looking at the loop condition only between polls makes no difference |
| PingPongCodec.GidToWireGid | pingpong/pingpong.c:72-80 | The four-step loop writes 32 digits and the terminator and nothing beyond |
| PingPongCodec.WireGidToGid | pingpong/pingpong.c:57-70 | The four-step loop stores the scanned words in the host's memory order |
| PingPongCodec.SwappedLoad | pingpong/pingpong.c:76-79 | What is printed is the big-endian number of the bytes, on a host of either byte order |
| PingPongCodec.GidRoundTrip | pingpong/pingpong.c:57-80 | An identifier printed on one host and scanned on another of either byte order is the same sixteen bytes |
| PingPongCodec.WireGidIs | pingpong/pingpong.c:72-80 | The text of an identifier is its bytes in order, two lower-case digits each, on a host of either byte order |
| PingPongRecord.RecordLayout | pingpong/uc_pingpong.c:177-179 | A record in range is printed as four digits of the lid, six of the queue pair number, six of the packet sequence number and the identifier, with colons between |
| PingPongRecord.RecordLength | pingpong/uc_pingpong.c:177-179 | The record is 51 characters if and only if its fields have 16, 24 and 24 bits |
| PingPongRecord.FitsBuffer | pingpong/uc_pingpong.c:135-179 | A record and its terminator are printed inside the 52-byte message buffer if and only if its fields have 16, 24 and 24 bits |
| PingPongRecord.ParsedAs | pingpong/uc_pingpong.c:192-199 | Any three fields of digits, of either case and any length, each with its colon, and 32 characters or more are parsed as their values |
| PingPongRecord.ParsedHasForm | pingpong/uc_pingpong.c:192-199 | Only such texts are parsed |
| PingPongRecord.TextRoundTrip | pingpong/uc_pingpong.c:192-199 | The text of every record parses back to it between hosts of any byte order |
| PingPongRecord.RecordRoundTrip | pingpong/uc_pingpong.c:177-199 | Every record whose fields are in range fills the 52-byte message exactly, and the peer parses it back to itself between hosts of any byte order |

## Left out

- The laws of the client do not hold of an active server, which posts DONE on every completion past its budget: the system of both programs has a passive one.
- Everything either side does after it starts to disconnect.
- Creation of queue pairs, regions and connections, epoll wrappers, options, forking, printing and scripts.
- The overflow of the C `int` loop counter of a client whose budget is infinite.
- IPsec and fragment pages by NUMA node; the commands that set type of service and traffic class, which are parameters of the bytes.
- The kernel's checksum routine, which is not part of the repository: the bytes have the checksum of RFC 1071.
- Threads some of whose devices stop or have the delay meaning "never": the schedule of a thread is that of devices that keep running.
- Commands other than those of the VLAN/MPLS stack; packet sizes of 2^31 and more, which the commands would store as negative numbers.
- Time is unbounded: the wrap-around of 64-bit nanoseconds, which the delay meaning "never" also reaches, is not modelled.
- The wait for the last buffer to be released, idle time, and the other statistics of the packet generator.
- `validate_buf`, MTU codes and the TCP exchange of the ping-pong; only its record is modelled.
- White space, signs and a `0x` prefix in front of scanned hexadecimal numbers, which printed records do not have.
- PktgenHeaderDevice.HeaderDevice.ModDestination: does not set up the IPsec association of a new flow, because IPsec is kernel code outside the file.
- PktgenHeaderDevice.HeaderDevice.ModCurHeaders: leaves out the IPsec association of a new flow, as ModDestination does.
- PktgenHeaderDevice.HeaderDevice.SetupInject: takes the numbers parsed from the address strings, and the addresses of the interface, as parameters.
- PktgenFrameDevice.FrameDevice.FillPacket: leaves out IPsec, and gives the packet as its fields; checksum and fixed bytes of the headers are added where `PktgenWire` writes the fields as bytes, as a function.
- PktgenTransmitDevice.TransmitDevice.Spin: models both ways of waiting as a loop over clock readings, because hrtimers and signals are kernel code; an interrupted wait is one whose readings end early.
- PingPongPeer.PingPongPeer.PostRecv: refuses a receive only when the queue is full, because other failures of the device end the process.
