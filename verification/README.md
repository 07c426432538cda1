# Sen transport and gateway: verified model

Sen processes find each other by discovery beams, connect over TCP, tell each other which participants
join which buses, and give every bus a multicast group of its own. A gateway lets tools reach a
running Sen kernel. This project models the parts of that where several steps, several processes or
several data structures have to agree, and proves that they do. Every claim below is a statement over
all inputs, all runs or all interleavings.

| file | what it models |
|---|---|
| `Exclusions.dfy` | the canonical interval set behind address and port exclusions |
| `AddressSpace.dfy` | digit-by-digit counting of a box of IPv4 addresses, minus exclusions, and selection by rank |
| `Odometer.dfy` | the slow alternative: stepping through the box in cyclic order |
| `BusAddress.dfy` | built-in and configured exclusions, the group of a bus, collisions between buses |
| `Bytes.dfy`, `LittleEndian.dfy`, `Framing.dfy`, `Beams.dfy`, `DataChannel.dfy` | length-prefixed streams: discovery beams, control and bus messages |
| `DiscoveryHub.dfy` | the hub that relays beams between its clients |
| `SendPipeline.dfy` | the asynchronous TCP writer, and its end-to-end guarantee together with the framing |
| `OutputQueues.dfy` | the bounded queue with eviction, one push at a time and with interleaved producers |
| `PeerProtocol.dfy` | Hello, Ready, BusJoined and BusLeft between two processes |
| `Discovery.dfy` | beam tracks, present beams, listeners and the kernel's set of processes |
| `PortBinding.dfy` | probing a port range around exclusions |
| `Glob.dfy` | the gateway's two-pointer glob matcher |
| `EventSubscriptions.dfy` | interests and event subscriptions of one kernel, between awaits |
| `Registry.dfy` | the gateway's registry of kernels |
| `Histories.dfy` | flags over the states of a run, used by the claims about what has set or ended something since |

State that the program updates in place is a class whose methods are proved against functions on
values (`View() == Step(old(View()), ...)`); runs are sequences of such steps, and invariants over runs
are lemmas. Where several threads or several awaiting calls share state, each atomic stretch is one
step and the order of steps is arbitrary.

## Assumptions

- A concurrent queue is a linearizable FIFO; the TCP outgoing queue is unbounded (`maxSize == 0`).
- One I/O thread runs the handlers of a process; a handler that has disconnected handles nothing more.
- Each framed write reaches the stream whole; bytes are neither lost nor reordered by TCP.
- 32-bit integers are four bytes, least significant first. Sizes are cut to 32 bits where the program
  casts them.
- The hash that picks a group is an arbitrary 32-bit function of its four inputs.
- A configured multicast range has first byte 239 and no empty byte range, as the component enforces
  when it loads (`components/ether/src/component.cpp:235-253`).
- In the gateway, tool handlers reach only a kernel that is not shutting down, and name an open interest
  where they require one. Names are arbitrary strings.
- Random starts and bind results are parameters; `bind` may answer differently on every attempt.

## Findings

- With a NUL character in a name, event keys clash and releasing one interest cancels another's
  subscriptions, although a comment in the program rules collisions out
  (`apps/mcp_gateway/src/kernel.ts:55`). `NulBreaksKeys` has the inputs and `ReleaseCancelsAnother` the
  run. Exactly when: a subscription shares its key with another iff one of its three names contains a
  NUL (`KeyIsSharedIff`); releasing x can cancel a subscription of y iff one of the two names starts
  with the other and a NUL (`SelectsAnotherIff` for keys, `CancelsAcrossIff` for runs).
- A frame whose payload size does not fit 32 bits is not read back. A list of messages comes through
  iff every size fits (`MessagesSurviveIff`), a list of beams iff every beam has 1 to 508 bytes
  (`BeamsComeBackIff`).
- The drop counter of the output queue can report a drop although nothing was dropped, when the
  consumer empties the queue between a producer's size check and its eviction
  (`DropCountedWithoutDrop`); `DropCountIsExactIff` says when it is exact.
- With P producers the queue can exceed its maximum by up to P - 1, and does in some run, for every
  maximum and every P (`QueueIsBounded`, `BoundIsReached`).
- A listener removed without callbacks and added again keeps processes that left in between
  (`SilentRemovalLeavesStale`). It agrees again iff every process it still remembers from its removal
  is present when it is added (`ReaddedAgreesIff`). The program itself removes listeners silently only
  when they are about to be destroyed.
- When writing a beam to one client of the discovery hub throws, the clients listed behind it are not
  sent that beam although they stay connected, and the sender is disconnected (`ThrowingWriteSkips`). A
  connected client has all the hub took of a sender since it joined iff no broadcast of that sender's
  beams broke off before it (`HasAllIff`); it misses at most the sender's last one.

## Model

| member | source | states |
|---|---|---|
| `Exclusions.AddIsUnion` | components/ether/src/network_exclusion.h:46-62 | adding a range covers exactly the old values and the new ones, and leaves the list sorted with a real gap between neighbours |
| `Exclusions.AddAllIsUnion` | components/ether/src/network_exclusion.h:46-62 | any sequence of adds leaves a canonical list covering exactly the added values |
| `Exclusions.CanonicalIsUnique` | components/ether/src/network_exclusion.h:32-33 | two canonical lists that cover the same values are identical |
| `Exclusions.AddOrderIsIrrelevant` | components/ether/src/network_exclusion.h:46-62 | adds covering the same values give identical ranges, whatever their order and overlap |
| `Exclusions.AddToSkips` | components/ether/src/network_exclusion.h:51-61 | adding leaves the ranges before the lower bound alone and absorbs from there on |
| `Exclusions.ExclusionSet.constructor` | components/ether/src/network_exclusion.h:106-106 | a new set is empty and canonical |
| `Exclusions.ExclusionSet.LowerBound` | components/ether/src/network_exclusion.h:51-52 | binary search finds the first range without a gap before the new minimum |
| `Exclusions.ExclusionSet.Add` | components/ether/src/network_exclusion.h:47-62 | erasing and inserting in place refines set union and keeps the set canonical and within the value type |
| `Exclusions.ExclusionSet.IsExcluded` | components/ether/src/network_exclusion.h:65-70 | binary search decides membership in the union |
| `Exclusions.ExclusionSet.NextUsable` | components/ether/src/network_exclusion.h:73-86 | the first uncovered candidate in sequence, none exactly when all candidates are covered |
| `AddressSpace.BytesRoundTrip` | components/ether/src/network_exclusion.cpp:650-650 | an address is recovered from its bytes |
| `AddressSpace.InBoxIsBytewise` | components/ether/src/network_exclusion.cpp:654-657 | the recursive box is the byte-wise one: each byte lies in its range |
| `AddressSpace.RankIsCardinality` | components/ether/src/network_exclusion.cpp:702-721 | the rank used as reference is the cardinality of the set of usable addresses below a bound |
| `AddressSpace.RankStep` | components/ether/src/network_exclusion.cpp:660-680 | the digit recurrence: rank and membership of a number from its leading digits and last byte |
| `AddressSpace.RankWithoutRange` | components/ether/src/network_exclusion.cpp:709-718 | taking out one more disjoint range lowers the count by exactly the box addresses inside it |
| `AddressSpace.ExtendPrefixes` | components/ether/src/network_exclusion.cpp:656-677 | one digit of the count: loose prefixes take every byte value, the tight one the smaller ones, and stays tight iff the limit's byte is allowed |
| `AddressSpace.ExtendTight` | components/ether/src/network_exclusion.cpp:663-677 | the inner loop adds the allowed byte values below the limit's for a tight prefix and keeps it tight iff the limit's own is allowed |
| `AddressSpace.CountAddressesUpTo` | components/ether/src/network_exclusion.cpp:647-684 | the loose/tight digit count equals the number of box addresses up to the limit, within 64 bits |
| `AddressSpace.CountAddressesInInterval` | components/ether/src/network_exclusion.cpp:686-700 | exact count of an interval, zero when it is empty, without underflow |
| `AddressSpace.CountUsableUpTo` | components/ether/src/network_exclusion.cpp:702-721 | subtracting the stored ranges one by one gives exactly the usable addresses up to the limit; no intermediate value underflows |
| `AddressSpace.UsableAddressCount` | components/ether/src/network_exclusion.cpp:725-728 | the cardinality of the set of all usable addresses |
| `AddressSpace.UsableAddressAtIndex` | components/ether/src/network_exclusion.cpp:730-762 | the usable address with exactly that many usable addresses below it, none exactly when the index is out of bounds; the closing assertion never fires |
| `AddressSpace.RankIsStrict` | components/ether/src/network_exclusion.cpp:740-741 | rank strictly increases along usable addresses |
| `AddressSpace.EveryRankIsTaken` | components/ether/src/network_exclusion.cpp:740-762 | every index below the count belongs to a usable address |
| `AddressSpace.RankIsABijection` | components/ether/src/network_exclusion.cpp:730-762 | rank is a strictly increasing bijection from the usable addresses onto [0, count), so selection is its inverse |
| `AddressSpace.SelectionDependsOnCoverage` | components/ether/src/network_exclusion.cpp:74-76 | the selected address depends only on which values are excluded |
| `Odometer.NextBytesIsNextAddress` | components/ether/src/network_exclusion.cpp:132-148 | stepping the bytes and stepping the address agree |
| `Odometer.NextBytesCarries` | components/ether/src/network_exclusion.cpp:132-148 | for any bytes, in the box or not: the last byte below its maximum grows by one, those before it stay and those after it restart at their minimum; with none below, all restart |
| `Odometer.Advance` | components/ether/src/network_exclusion.cpp:134-147 | the loop does that step to the bytes in place |
| `Odometer.NextMulticastAddress` | components/ether/src/network_exclusion.cpp:132-148 | the next address, by stepping its four bytes |
| `Odometer.SpaceSizeIsCount` | components/ether/src/network_exclusion.cpp:120-130 | the product of the byte range sizes is the number of box addresses |
| `Odometer.MulticastSpaceSize` | components/ether/src/network_exclusion.cpp:120-130 | the loop computes that number, positive and within 64 bits |
| `Odometer.NextAddressIsCyclic` | components/ether/src/network_exclusion.cpp:132-148 | a step stays in the box and moves to the next rank, from the last one to the first |
| `Odometer.IterateIsRotation` | components/ether/src/network_exclusion.cpp:764-771 | after i steps the scan stands i ranks further on, modulo the size |
| `Odometer.ReachedAtDistance` | components/ether/src/network_exclusion.cpp:764-771 | within one round every box address is visited exactly once |
| `Odometer.ScanIsFirst` | components/ether/src/network_exclusion.h:72-86 | the bounded scan finds the usable address nearest in cyclic order, none iff the usable total is zero |
| `Odometer.UsableMulticastAddress` | components/ether/src/network_exclusion.cpp:764-779 | from any candidate the first address not excluded among as many steps as the range has addresses; from an in-range one the first usable address in cyclic order, none iff the counted total is zero |
| `BusAddress.Check` | components/ether/src/network_exclusion.cpp:91-118 | accepts exactly an ordered range inside 239.0.0.0/8; reports an unreadable address first, then a wrong order, then a wrong scope |
| `BusAddress.MakeMulticastExclusions` | components/ether/src/network_exclusion.cpp:572-606 | succeeds iff every configured range is accepted, otherwise with the first error in order; an address is then excluded iff it is in 239.0, 239.128, 239.195.255, 239.255.255 or 239.255.0 or inside a configured range, and the set is canonical |
| `BusAddress.BuiltInIsAccepted` | components/ether/src/network_exclusion.cpp:60-78 | the built-in ranges are accepted and are exactly the blocks 239.0, 239.128, 239.195.255, 239.255.255 and 239.255.0 |
| `BusAddress.ExcludedIff` | components/ether/src/network_exclusion.cpp:572-606 | for all configured ranges an address is excluded iff it is in one of these blocks or inside one of the ranges, so nothing else is taken from the scope |
| `BusAddress.ComputeMulticastAddress` | components/ether/src/bus_handler.cpp:93-111 | a usable multicast address whose rank is the hash, seeded with 15071983, modulo the usable count; fails exactly when nothing is usable |
| `BusAddress.FirstByteIs239` | components/ether/src/component.cpp:235-253 | every address of an accepted range starts with 239 |
| `BusAddress.NoAlias` | components/ether/src/network_exclusion.cpp:66-72 | outside the two aliased /16 blocks the low 23 bits differ from those of every group in 224.0.0.0/16 (section 6.4 of RFC 1112) |
| `BusAddress.OutsideBuiltIn` | components/ether/src/network_exclusion.cpp:60-78 | outside the built-in ranges an address keeps clear of the reserved /24 blocks (section 9 of RFC 2365), the discovery block and the aliased addresses |
| `BusAddress.AllocatedGroupIsSafe` | components/ether/src/network_exclusion.cpp:60-78 | every allocated group lies in the range byte by byte, outside every configured exclusion, the reserved and discovery blocks, with second byte modulo 128 not zero |
| `BusAddress.NoReportMeansNoSharing` | components/ether/src/bus_handler.cpp:122-137 | no collision is reported iff allocations of one group belong to one bus |
| `BusAddress.AnalysisIsReported` | components/ether/src/bus_handler.cpp:122-137 | every reported pair is a group's first allocation and another bus in that group, and every allocation of another bus is reported |
| `BusAddress.AnalysisIsIndexed` | components/ether/src/bus_handler.cpp:119-125 | the index maps exactly the groups seen, each to its first allocation |
| `BusAddress.AnalysisIsExact` | components/ether/src/bus_handler.cpp:113-142 | kept allocations number the distinct groups plus the reported collisions, together with the two claims above |
| `BusAddress.AnalysisIsInOrder` | components/ether/src/bus_handler.cpp:122-137 | what is kept is the input without the repeats of a group's first bus, and the collisions are each later bus of a group with its first one, both in input order |
| `BusAddress.AnalyzeMulticastAllocations` | components/ether/src/bus_handler.cpp:113-142 | the loop computes that analysis: the input without repeats, and all collisions, in order |
| `LittleEndian.DecodeEncoded` | libs/core/include/sen/core/io/output_stream.h:64-64 | decoding n encoded bytes gives the value modulo 256 to the n |
| `LittleEndian.EncodeDecoded` | components/ether/src/util.h:47-60 | encoding undoes decoding for every byte string |
| `LittleEndian.EncodedBytes` | components/ether/src/util.h:47-54 | the four bytes of a value are value, value / 2^8, value / 2^16 and value / 2^24, each modulo 256, in this order |
| `LittleEndian.DecodedValue` | components/ether/src/util.h:56-60 | four bytes mean the first plus 2^8 times the second plus 2^16 times the third plus 2^24 times the fourth |
| `LittleEndian.RoundTrip32` | components/ether/src/util.h:47-60 | header decode undoes encode up to the cut to 32 bits, and encode undoes decode |
| `Framing.ReadWritten` | components/ether/src/tcp_beam_tracker.cpp:189-214 | reading written frames gives them back and goes on with whatever follows |
| `Framing.RoundTrip` | components/ether/src/tcp_beam_tracker.cpp:244-275 | header-then-payload reading of concatenated frames returns exactly them, with nothing left over |
| `Framing.Truncation` | components/ether/src/tcp_beam_tracker.cpp:189-275 | a stream cut anywhere yields a prefix of the frames, none altered, and is not taken for a bad one |
| `Framing.ReadIsFaithful` | components/ether/src/tcp_beam_tracker.cpp:189-275 | the frames read and the rest are the stream: nothing is lost or invented |
| `Framing.ReadMore` | components/ether/src/process_handler.cpp:639-697 | bytes that arrive later only add to what has been read |
| `Framing.StreamReader.constructor` | components/ether/src/tcp_beam_tracker.cpp:189-214 | a new reader has read nothing |
| `Framing.StreamReader.TakeHeader` | components/ether/src/tcp_beam_tracker.cpp:191-210 | exactly a bad header stops the reader; a good one is stored and taken off the buffer; what was delivered stays |
| `Framing.StreamReader.TakePayload` | components/ether/src/tcp_beam_tracker.cpp:244-275 | exactly the announced bytes become the next frame |
| `Framing.StreamReader.Feed` | components/ether/src/process_handler.cpp:639-697 | whatever the chunking, the frames delivered are those of the whole stream received so far |
| `Beams.FitsIffSendable` | components/ether/src/tcp_beam_tracker.cpp:199-206 | a header announces its own beam iff the beam has 1 to 508 bytes |
| `Beams.SentSnoc` | components/ether/src/tcp_beamer.cpp:50-69 | on the wire each beam is its size in four bytes followed by its content |
| `Beams.AnyHeaderIsRead` | components/ether/src/tcp_beam_tracker.cpp:189-214 | for any stream: a header outside 1 to 508 stops the reader, one inside makes the next beam exactly the bytes it announces, as soon as they are there |
| `Beams.BeamsRoundTrip` | components/ether/src/tcp_beamer.cpp:50-69 | a tracker gets back exactly the beams written and never loses step |
| `Beams.BeamsComeBackIff` | components/ether/src/beamer.cpp:56-68 | a list of beams of any sizes comes back iff every one has 1 to 508 bytes |
| `Beams.BeamsTruncated` | components/ether/src/tcp_beam_tracker.cpp:189-275 | a cut stream yields a prefix of the beams |
| `Beams.ReceivedIsSendable` | components/ether/src/tcp_discovery_hub.cpp:82-123 | whatever a reader takes out of any stream can be sent on |
| `Beams.RelayPreservesBeams` | components/ether/src/tcp_discovery_hub.cpp:82-187 | one hop through the hub, cut off anywhere on both sides, still yields a prefix of the original beams; uncut, all of them |
| `DiscoveryHub.RelayReachesAllOthers` | components/ether/src/tcp_discovery_hub.cpp:282-307 | a broadcast reaches every connected client but the sender, once, and nobody else |
| `DiscoveryHub.BroadcastCarries` | components/ether/src/tcp_discovery_hub.cpp:154-187 | a broadcast keeps the bytes of each connection equal to the frames of the beams relayed to it |
| `DiscoveryHub.ClientSeesRelayed` | components/ether/src/tcp_discovery_hub.cpp:154-187 | what a client has decoded at any moment is a prefix of what was relayed to it |
| `DiscoveryHub.Hub.constructor` | components/ether/src/tcp_discovery_hub.h:46-46 | a new hub has no clients |
| `DiscoveryHub.Hub.Accept` | components/ether/src/tcp_discovery_hub.cpp:251-254 | a new client is listed with an empty outgoing stream |
| `DiscoveryHub.Hub.Broadcast` | components/ether/src/tcp_discovery_hub.cpp:282-307 | the loop writes one whole frame to each other client in list order; a write that throws, and nothing else, ends it there |
| `DiscoveryHub.Hub.Receive` | components/ether/src/tcp_discovery_hub.cpp:82-152 | every beam that a chunk completes is relayed, in order, also for a client taken off the list since; a header that announces no beam ends the connection |
| `DiscoveryHub.Hub.ReceiveThrowing` | components/ether/src/tcp_discovery_hub.cpp:125-152 | a beam whose broadcast throws reaches the clients listed before; its sender is disconnected and read no more |
| `DiscoveryHub.StepRelays` | components/ether/src/tcp_discovery_hub.cpp:125-152 | a step adds to a client exactly the beams another client's bytes complete, if it is connected and listed before any write that throws |
| `DiscoveryHub.StepArrives` | components/ether/src/tcp_discovery_hub.cpp:82-152 | the bytes a step reads from a client, and the beams it takes out of them, are added to what was there; other clients' stay |
| `DiscoveryHub.RelaysSinceJoin` | components/ether/src/tcp_discovery_hub.cpp:240-314 | in every run a client has been sent, of each other one's beams, a prefix of those the hub took since it joined; while it is connected all of them, or all but the last if relaying that one threw |
| `DiscoveryHub.HasAllIff` | components/ether/src/tcp_discovery_hub.cpp:282-307 | in every run a client still connected has been sent all beams the hub took of another since it joined iff no broadcast of that one's beams broke off before it |
| `DiscoveryHub.ListedIff` | components/ether/src/tcp_discovery_hub.cpp:82-152 | in every run a client that joined is listed iff it has not since been disconnected, announced no beam in a header, or had a beam whose relay threw |
| `DiscoveryHub.ListedIsReadable` | components/ether/src/tcp_discovery_hub.cpp:82-123 | in every run the bytes that arrived from a listed client hold no bad header, and it is still read |
| `DiscoveryHub.ThrowingWriteSkips` | components/ether/src/tcp_discovery_hub.cpp:282-307 | a run in which the hub takes a beam and a client that stays connected is not sent it |
| `DiscoveryHub.ChunksTogether` | components/ether/src/tcp_discovery_hub.cpp:82-152 | two chunks in a row do what they do as one, so how the bytes are cut does not matter, also across a bad header |
| `DiscoveryHub.HeardIsReceived` | components/ether/src/tcp_discovery_hub.cpp:82-152 | in every run the beams the hub has taken from a client are exactly those a reader finds in the bytes that arrived from it |
| `DiscoveryHub.ClientsSeeSenders` | components/ether/src/tcp_discovery_hub.cpp:240-314 | in every run of joins, arriving bytes, throwing writes and leaves: what a client decodes of a sender is a prefix of what that sender wrote, from the beam the hub had reached when the client joined; nothing is its own; with all bytes in, a connected client has everything the hub took iff no broadcast broke off before it |
| `DiscoveryHub.Hub.Disconnect` | components/ether/src/tcp_discovery_hub.cpp:309-314 | exactly the client is taken off the list |
| `DataChannel.FrameRoundTrip` | components/ether/src/process_handler.cpp:743-768 | a framed message decodes to itself, and its header announces its payload iff the size fits 32 bits |
| `DataChannel.WireLayout` | components/ether/src/process_handler.cpp:743-768 | a control message is the byte 1, its size and its content; a bus message the byte 0, its size with eight added, recipient, bus and payload; each number in four bytes |
| `DataChannel.AnyFrameIsRead` | components/ether/src/process_handler.cpp:639-697 | whatever the first byte of a frame: 1 is dispatched as a control message, anything else as a bus message if it has at least eight bytes, and reading goes on behind it |
| `DataChannel.BusContent` | components/ether/src/process_handler.cpp:352-368 | a bus frame decodes to the same recipient, bus and payload |
| `DataChannel.ChannelIsFaithful` | components/ether/src/process_handler.cpp:639-697 | any received part of the stream decodes to the first messages sent, unaltered; all of it to all of them |
| `DataChannel.MessagesSurviveIff` | components/ether/src/process_handler.cpp:505-513 | a list of messages is dispatched as it was sent iff every size fits the 32-bit field |
| `SendPipeline.StepKeepsOrder` | components/ether/src/process_handler.cpp:576-633 | every step keeps written, rest of the bulk buffer and queue together equal to the accepted packets |
| `SendPipeline.StepKeepsInvariant` | components/ether/src/process_handler.cpp:576-633 | every step keeps the order, the meaning of the sending flag and the promise of a wake-up |
| `SendPipeline.RunKeepsInvariant` | components/ether/src/process_handler.cpp:576-633 | so in every state of every run |
| `SendPipeline.RunIsOrderly` | components/ether/src/process_handler.cpp:505-547 | in every run nothing is lost, doubled or reordered; the buffer is refilled only when it is through and no write is in flight; an open socket with a non-empty queue has a callback posted, about to be posted, or a write in flight |
| `SendPipeline.StepIsExact` | components/ether/src/process_handler.cpp:576-633 | a step hands over the next packet not yet written iff it starts a write: the next of the batch, or the first of a new one while the socket is open and no write is under way; a write is under way until it completes; the socket closes iff the step closes it, fails or throws |
| `SendPipeline.RunIsExact` | components/ether/src/process_handler.cpp:505-633 | in every run: written, batch and queue are what was pushed, in that order; a batch has at most ten packets; the socket is open iff no step has broken the connection; every step is exact |
| `SendPipeline.ProgressUsesWork` | components/ether/src/process_handler.cpp:576-633 | every step of the pipeline lowers a bound on the steps left |
| `SendPipeline.NotQuiescentCanStep` | components/ether/src/process_handler.cpp:576-599 | a pipeline that is not at rest can take another step |
| `SendPipeline.EverythingIsSent` | components/ether/src/process_handler.cpp:576-633 | left alone, an open pipeline comes to rest within that bound and has then written every accepted packet |
| `SendPipeline.EndToEnd` | components/ether/src/process_handler.cpp:505-697 | the peer has dispatched the first messages pushed, in order and unaltered, and all of them once the pipeline is at rest and the bytes are in |
| `SendPipeline.Sender.constructor` | components/ether/src/process_handler.h:170-172 | a new sender has nothing queued and nothing in flight |
| `SendPipeline.Sender.PushPacket` | components/ether/src/process_handler.cpp:528-547 | a push queues the packet and owes one post |
| `SendPipeline.Sender.MaybeSendTcp` | components/ether/src/process_handler.cpp:576-599 | refills the bulk array and starts a write unless one is in flight, the socket is closed or the queue is empty |
| `SendPipeline.Sender.SendTcp` | components/ether/src/process_handler.cpp:601-633 | hands over the first packet of the batch, or clears the flag and looks for more; a write that throws when started closes with the batch unsent |
| `SendPipeline.Sender.OnWritten` | components/ether/src/process_handler.cpp:616-627 | a completed write moves on to the next packet, a failed one closes |
| `SendPipeline.Sender.RunPostedCallback` | components/ether/src/process_handler.cpp:546-546 | a posted callback runs the refill once |
| `OutputQueues.NothingIsLost` | components/ether/src/output_queue.h:89-157 | for every sequence of pushes and dequeues: pushed = taken + queued + dropped; taken then queued is a subsequence of pushed; the size stays within the maximum; dropping the oldest keeps the most recent; the warning is on above the level and off below |
| `OutputQueues.AppendKeeps` | components/ether/src/output_queue.h:92-110 | a push with room keeps that |
| `OutputQueues.EvictionKeeps` | components/ether/src/output_queue.h:112-123 | a push into a full queue keeps that, under either policy |
| `OutputQueues.DequeueKeeps` | components/ether/src/output_queue.h:144-157 | a bulk dequeue keeps that |
| `OutputQueues.PushOneMore` | components/ether/src/output_queue.h:89-123 | after any operations, one more push drops an element iff the queue is full: the oldest or the new one, by policy; otherwise it is appended |
| `OutputQueues.DequeueOneMore` | components/ether/src/output_queue.h:144-157 | after any operations, one more dequeue takes the oldest elements, exactly the smaller of the maximum and the size; none iff none is asked for or there |
| `OutputQueues.WarnedIff` | components/ether/src/output_queue.h:103-153 | for every sequence of operations the warning is on iff there is a maximum and a level, the size has exceeded the level, and has not been below it since |
| `OutputQueues.OutputQueue.constructor` | components/ether/src/output_queue.h:76-83 | a new queue is empty |
| `OutputQueues.OutputQueue.Push` | components/ether/src/output_queue.h:89-123 | appends with room; in a full queue drops the oldest or the new element by policy and counts it; sets the warning from the level on |
| `OutputQueues.OutputQueue.DequeueBulk` | components/ether/src/output_queue.h:144-157 | exactly the first elements in order, the smaller of the maximum and the size; batch and rest together are the old queue; the warning goes off iff the rest is below the level |
| `OutputQueues.StepKeepsBound` | components/ether/src/output_queue.h:99-120 | every atomic step keeps size plus producers about to enqueue below maxSize + P |
| `OutputQueues.StepKeepsOrder` | components/ether/src/output_queue.h:99-120 | every atomic step keeps what left, then what is queued, equal to what entered |
| `OutputQueues.StepKeepsAccount` | components/ether/src/output_queue.h:99-123 | every atomic step keeps the accounts of drops, rejections and pushes begun |
| `OutputQueues.QueueIsBounded` | components/ether/src/output_queue.h:89-157 | in every interleaving of P producers at most maxSize + P - 1 elements are queued, and elements leave in the order they entered |
| `OutputQueues.BoundIsReached` | components/ether/src/output_queue.h:99-101 | for every maximum and every P some run reaches that bound exactly |
| `OutputQueues.DropCountIsExactIff` | components/ether/src/output_queue.h:112-123 | once all pushes have returned, begun + missed evictions = consumed + queued + drop count; the counter is exact iff no eviction found the queue empty |
| `OutputQueues.DropCountedWithoutDrop` | components/ether/src/output_queue.h:114-122 | a run in which a drop is counted and nothing is dropped |
| `OutputQueues.SoloPushIsPushed` | components/ether/src/output_queue.h:89-123 | a push that nobody interrupts does what the one-step push does |
| `OutputQueues.ConsumeIsDequeued` | components/ether/src/output_queue.h:144-157 | a consumer's step is one dequeue: the batch leaves in order and no drop is counted |
| `PeerProtocol.ExactlyOneInitiates` | components/ether/src/ether_transport.cpp:378-437 | of two processes of a session that discover each other exactly the one with the higher process id connects, of equal ids the one on the higher host; the own beam and other sessions are ignored |
| `PeerProtocol.RemoveFirstIsDifference` | components/ether/src/ether_transport.cpp:557-562 | erasing a participant takes out one occurrence, if there is one |
| `PeerProtocol.JoinAgrees` | components/ether/src/ether_transport.cpp:503-543 | a join message does to the peer's view what the join does to the local buses |
| `PeerProtocol.LeaveAgrees` | components/ether/src/ether_transport.cpp:545-573 | so does a leave message, also for somebody who is not there |
| `PeerProtocol.HelloKeeps` | components/ether/src/process_handler.cpp:240-310 | handling Hello keeps the invariant of the pair |
| `PeerProtocol.ReadyKeeps` | components/ether/src/process_handler.cpp:312-320 | handling Ready keeps it, whatever the order of the snapshot |
| `PeerProtocol.BusMessageKeeps` | components/ether/src/process_handler.cpp:322-350 | handling a join or leave keeps it |
| `PeerProtocol.JoinKeeps` | components/ether/src/ether_transport.cpp:503-543 | a local join keeps it, before or after Ready |
| `PeerProtocol.LeaveKeeps` | components/ether/src/ether_transport.cpp:545-573 | a local leave keeps it |
| `PeerProtocol.PairStepKeeps` | components/ether/src/process_handler.cpp:240-350 | every step of either side keeps the invariant of both |
| `PeerProtocol.RunKeepsInvariant` | components/ether/src/process_handler.cpp:240-350 | so in every state of every run of two fresh processes |
| `PeerProtocol.InvariantImpliesConvergence` | components/ether/src/ether_transport.cpp:468-484 | the invariant gives convergence and a sound handshake |
| `PeerProtocol.RunIsSound` | components/ether/src/ether_transport.cpp:468-573 | in every reachable state, in both directions: replaying what is in flight onto the peer's view gives exactly the local members, equal when nothing is in flight; a side past Ready and its peer have the same session and kernel protocol and both an ether protocol from 2 on, and know each other's process info; a side that handled the Hello of any other process is closed; each direction is one Hello, at most one Ready, then bus messages; members are reported exactly from the first bus message on, under the peer's own process id; a side not connected is not ready and knows no member |
| `PeerProtocol.StepSends` | components/ether/src/process_handler.cpp:215-320 | exactly what each event makes a side send: Hello, Ready for an acceptable Hello, the snapshot for Ready, and every local join and leave while ready |
| `PeerProtocol.MembersAreHistory` | components/ether/src/ether_transport.cpp:503-573 | in every run the local buses hold exactly the members that joins and leaves have made, and no bus is empty |
| `PeerProtocol.PhaseIsHistory` | components/ether/src/process_handler.cpp:240-283 | in every run a side is idle until connected or disconnected, and closed iff it was disconnected or handled the Hello of another session, another kernel protocol or an ether protocol before 2 |
| `PeerProtocol.NamesAreKept` | components/ether/src/ether_transport.cpp:468-573 | if callers call each bus by one name, so does every join and leave of the run, the snapshot included |
| `PeerProtocol.DrainedPairAgrees` | components/ether/src/ether_transport.cpp:468-573 | in every run two connected sides with nothing in flight are both ready, have one session, one kernel protocol and ether protocols from 2 on, and each knows exactly the members that the other's joins and leaves have made |
| `PeerProtocol.HandleOne` | components/ether/src/process_handler.cpp:240-350 | whichever side has a message waiting can handle it; both stay connected, and a measure of the handshake and the messages left goes down |
| `PeerProtocol.PairSettles` | components/ether/src/process_handler.cpp:240-350 | from every reachable state with both sides connected, of one session and kernel protocol and ether protocols from 2 on, handling messages alone leads to a state with nothing in flight in which they agree |
| `PeerProtocol.Transport.constructor` | components/ether/src/process_handler.h:157-158 | a new side is idle and knows nobody |
| `PeerProtocol.Transport.HandleConnected` | components/ether/src/process_handler.cpp:411-452 | connecting sends Hello with the own session and versions |
| `PeerProtocol.Transport.HandleDisconnected` | components/ether/src/ether_transport.cpp:450-466 | a disconnect ends readiness and drops the peer's members |
| `PeerProtocol.Transport.HandleHello` | components/ether/src/process_handler.cpp:240-310 | a Hello of another session, another kernel protocol or an ether protocol before 2, and no other, closes and sends nothing; otherwise the peer's info is stored and exactly Ready is sent |
| `PeerProtocol.Transport.HandleReady` | components/ether/src/ether_transport.cpp:468-484 | the peer becomes ready and is sent exactly the members of every local bus |
| `PeerProtocol.Transport.AnnounceBus` | components/ether/src/ether_transport.cpp:476-482 | one bus: a join for each participant, in order and as often as it is there, under the name of the bus |
| `PeerProtocol.Transport.HandleBusMessage` | components/ether/src/process_handler.cpp:322-350 | a join or leave is reported under the process id learnt at Ready |
| `PeerProtocol.Transport.LocalParticipantJoinedBus` | components/ether/src/ether_transport.cpp:503-543 | a local join updates the bus and tells a ready peer |
| `PeerProtocol.Transport.LocalParticipantLeftBus` | components/ether/src/ether_transport.cpp:545-573 | a local leave tells a ready peer, takes out the first occurrence, and drops an empty bus |
| `Discovery.TellAllTeaches` | components/ether/src/discovery.cpp:143-146 | a notification teaches exactly the registered listeners, however often they are registered |
| `Discovery.WithoutLoses` | components/ether/src/beam_tracker.cpp:193-195 | removing a process removes exactly it and keeps processes unique |
| `Discovery.TakenOutInPlace` | components/ether/src/discovery.cpp:157-159 | the other beams keep their places |
| `Discovery.UnregisteredInPlace` | components/ether/src/discovery.cpp:124-124 | the other listeners keep their places |
| `Discovery.StepKeepsMirror` | components/ether/src/beam_tracker.cpp:121-212 | every step keeps tracks unique per process, equal to the present beams up to the one change being passed on, and the kernel's set equal to the present remote processes |
| `Discovery.StepTeaches` | components/ether/src/discovery.cpp:106-169 | what each step does to a listener's knowledge |
| `Discovery.StepTells` | components/ether/src/discovery.cpp:106-169 | exactly what a step adds to a listener's log: a change once for each registration, every present beam in order when added, every present process in order when removed with callbacks |
| `Discovery.StepKeepsInformed` | components/ether/src/discovery.cpp:106-160 | a registered listener never misses a present process |
| `Discovery.StepKeepsAgreement` | components/ether/src/discovery.cpp:106-169 | a listener never removed silently knows exactly the present processes while registered and none otherwise |
| `Discovery.ListenersHoldBeams` | components/ether/src/discovery.cpp:106-160 | in every run a registered listener holds, for every present process, the very beam that is present, endpoints included |
| `Discovery.OnlyReceivedBeams` | components/ether/src/beam_tracker.cpp:121-156 | in every run every beam tracked, present or told to a listener was received with those endpoints |
| `Discovery.SourcedIff` | components/ether/src/discovery.cpp:106-130 | in every run a listener has the system as its source iff it was added and not removed with callbacks since |
| `Discovery.TrackedIffHeard` | components/ether/src/beam_tracker.cpp:121-195 | in every run the tracked processes are those whose beam came after they were last taken out |
| `Discovery.ReaddedAgreesIff` | components/ether/src/discovery.cpp:106-130 | in every run a listener removed silently and next added later agrees again iff every process it still remembers from its removal is present then |
| `Discovery.LayersAgree` | components/ether/src/beam_tracker.cpp:121-212 | in every reachable state with the tracker at rest: tracks equal present beams, in order and unique, and are the processes heard of since they were last taken out; the kernel knows exactly the remote ones; registered listeners know all of them, and exactly them unless once removed silently; unregistered ones know none |
| `Discovery.SilentRemovalLeavesStale` | components/ether/src/discovery.cpp:120-130 | a run, for any beam and listener, in which a listener removed silently and added again knows a process although none is present |
| `Discovery.DiscoverySystem.constructor` | components/ether/src/discovery.h:87-88 | a new system knows nobody |
| `Discovery.DiscoverySystem.FindTrack` | components/ether/src/beam_tracker.cpp:174-187 | finds a track iff the process is tracked |
| `Discovery.DiscoverySystem.BeamReceived` | components/ether/src/beam_tracker.cpp:121-156 | a new process is tracked, present, announced to listeners and registered in the kernel if remote; a known one changes nothing |
| `Discovery.DiscoverySystem.RemoveTrack` | components/ether/src/beam_tracker.cpp:189-212 | a process is taken out of every layer |
| `Discovery.DiscoverySystem.AddToPresent` | components/ether/src/discovery.cpp:138-147 | the beam is present and every listener has been told |
| `Discovery.DiscoverySystem.RemoveFromPresent` | components/ether/src/discovery.cpp:149-160 | every listener has been told and the process is not present |
| `Discovery.DiscoverySystem.NotifyListeners` | components/ether/src/discovery.cpp:143-146 | the loop tells every registered listener, in order |
| `Discovery.DiscoverySystem.Register` | components/ether/src/discovery.cpp:106-118 | a new listener is told of every present beam |
| `Discovery.DiscoverySystem.Unregister` | components/ether/src/discovery.cpp:120-130 | a listener is taken off the list and, with callbacks, told that every present process is lost |
| `Discovery.DiscoverySystem.ClearOurselvesAsSource` | components/ether/src/discovery.cpp:162-169 | the loop withdraws every present process from the listener |
| `PortBinding.IsPortExcluded` | components/ether/src/network_exclusion.h:163-168 | excluded by at least one of the three sources |
| `PortBinding.GetUsablePorts` | components/ether/src/port_binding.cpp:134-150 | exactly the ports of the range that no source excludes, in increasing order; with the excluded ones they make up the range |
| `PortBinding.CyclicIsPermutation` | components/ether/src/port_binding.cpp:228-231 | trying the ports in cyclic order tries each exactly once |
| `PortBinding.BindUsablePorts` | components/ether/src/port_binding.cpp:215-257 | attempts follow the cyclic order; all but the last were in use; the last decides success, failure or exhaustion |
| `PortBinding.BindProbe` | components/ether/src/port_binding.cpp:259-280 | whatever the start and the answers: attempts are distinct, in range and excluded by no source; success means the last bound and the others were in use; "no port available" means every port not excluded was tried and in use; an inverted or fully excluded range is reported exactly then, without an attempt |
| `Glob.StarAbsorbs` | apps/mcp_gateway/src/tools.ts:863-864 | a star may take any number of characters |
| `Glob.StarSplits` | apps/mcp_gateway/src/tools.ts:863-864 | a match that starts with a star says how many it takes |
| `Glob.MatchesIffCut` | apps/mcp_gateway/src/tools.ts:863-864 | a name matches iff it can be cut into parts, one for each character of the pattern in order: any text for a star, one character for a question mark, itself for any other |
| `Glob.TakeStar` | apps/mcp_gateway/src/tools.ts:872-874 | committing to the newest star loses no match |
| `Glob.Retry` | apps/mcp_gateway/src/tools.ts:878-880 | after a mismatch the newest star must take one more character |
| `Glob.NoStarNoMatch` | apps/mcp_gateway/src/tools.ts:881-883 | a mismatch without a star before it is final |
| `Glob.NameConsumed` | apps/mcp_gateway/src/tools.ts:885-886 | at the end of the name the rest of the pattern decides |
| `Glob.VisitedBound` | apps/mcp_gateway/src/tools.ts:863-864 | distinct visited positions number at most (pattern length + 1) times name length |
| `Glob.WalkIsOnTrack` | apps/mcp_gateway/src/tools.ts:870-884 | every walk of the main loop keeps the match decided by its cursor and never returns to a position |
| `Glob.GlobMatch` | apps/mcp_gateway/src/tools.ts:865-887 | true iff the recursive definition matches the whole name, iff it can be cut into such parts; at most (pattern length + 1) times name length iterations, no position visited twice |
| `EventSubscriptions.PrefixSelects` | apps/mcp_gateway/src/kernel.ts:239-243 | for all names: the prefix test selects an interest's own keys, those of an interest whose name starts with the prefix, and those of a shorter one whose object and event complete it; only its own without NUL in the two names |
| `EventSubscriptions.SelectsAnotherIff` | apps/mcp_gateway/src/kernel.ts:239-243 | the prefix of one interest selects a key of another iff one of the two names starts with the other and a NUL |
| `EventSubscriptions.EventKeyIsInjective` | apps/mcp_gateway/src/kernel.ts:271-273 | different subscriptions have different keys, for NUL-free interest and object names and any event names |
| `EventSubscriptions.KeyIsSharedIff` | apps/mcp_gateway/src/kernel.ts:271-273 | some other subscription has the same key iff one of the three names contains a NUL |
| `EventSubscriptions.NulBreaksKeys` | apps/mcp_gateway/src/kernel.ts:239-273 | names for which releasing either interest selects the other's keys, and two subscriptions share one |
| `EventSubscriptions.InstallKeeps` | apps/mcp_gateway/src/kernel.ts:183-205 | installing a handler keeps the invariant |
| `EventSubscriptions.WakeKeeps` | apps/mcp_gateway/src/kernel.ts:172-182 | waking a waiting call keeps it |
| `EventSubscriptions.SettleKeeps` | apps/mcp_gateway/src/kernel.ts:209-224 | an acknowledgement or failure keeps it: a call retracts only its own entries |
| `EventSubscriptions.CancelKeysKeeps` | apps/mcp_gateway/src/kernel.ts:227-251 | unsubscribing one key or many keeps it |
| `EventSubscriptions.ReleaseKeeps` | apps/mcp_gateway/src/tools.ts:346-356 | closing an interest keeps the invariant, takes every entry that belongs to it, and leaves every entry of an interest whose name does not interfere |
| `EventSubscriptions.CommitKeeps` | apps/mcp_gateway/src/kernel.ts:93-96 | turning a reserved slot into an open interest keeps it |
| `EventSubscriptions.TearDownEmpties` | apps/mcp_gateway/src/kernel.ts:153-153 | tearing down every open interest leaves no subscription |
| `EventSubscriptions.StepKeeps` | apps/mcp_gateway/src/kernel.ts:140-273 | every step of every call keeps the invariant |
| `EventSubscriptions.RunIsSound` | apps/mcp_gateway/src/kernel.ts:140-273 | for all names, in every state of every interleaving: a handler is live iff it is the one stored under its key, so each key has at most one; a key is pending iff that very handler is awaited; every key's interest is open under the same handle; nothing is live after shutdown; at most 64 slots are taken |
| `EventSubscriptions.AwaitedIff` | apps/mcp_gateway/src/kernel.ts:207-224 | in every run an attempt is awaited iff it has been neither acknowledged nor failed |
| `EventSubscriptions.PendingIff` | apps/mcp_gateway/src/kernel.ts:204-224 | in every run a key is pending iff a handler is stored under it that has been neither acknowledged nor failed |
| `EventSubscriptions.RiderWakesIff` | apps/mcp_gateway/src/kernel.ts:172-173 | in every run a waiting call can go on iff the attempt it waits for has been acknowledged or has failed |
| `EventSubscriptions.SubscribeStores` | apps/mcp_gateway/src/kernel.ts:161-205 | in every run a call leaves its key stored: it installs a handler iff there is none, and waits iff the stored one is not acknowledged |
| `EventSubscriptions.WakeDecides` | apps/mcp_gateway/src/kernel.ts:172-205 | in every run a woken call waits no more, installs a handler iff there is none, the kernel is open and the interest is the one it knew, and otherwise changes nothing |
| `EventSubscriptions.OnlyCallsInstall` | apps/mcp_gateway/src/kernel.ts:140-273 | no other step installs a handler, or makes a call wait or go on |
| `EventSubscriptions.InterestIsOpenIff` | apps/mcp_gateway/src/kernel.ts:93-158 | in every run an interest is open under a handle iff it was committed under it and since then neither released nor the shutdown finished |
| `EventSubscriptions.SlotIsReservedIff` | apps/mcp_gateway/src/kernel.ts:80-100 | in every run a name becomes reserved iff it is neither open nor reserved and fewer than 64 are, and stays so until committed or given up |
| `EventSubscriptions.PhaseIsHistory` | apps/mcp_gateway/src/kernel.ts:140-159 | in every run the phase is how far the shutdown has got |
| `EventSubscriptions.StepEndsIff` | apps/mcp_gateway/src/kernel.ts:140-273 | a step takes a stored handler away iff it is its failure, an unsubscribe of its key, a release or unsubscribe of an interest whose prefix selects the key, or the teardown |
| `EventSubscriptions.SubscriptionIsKeptIff` | apps/mcp_gateway/src/kernel.ts:140-273 | in every run, for all names, a handler once stored is still stored iff no such event has come since |
| `EventSubscriptions.OnlyItsOwnEnd` | apps/mcp_gateway/src/kernel.ts:215-223 | in every run with NUL-free interest names it is still stored iff nothing since was its failure, an unsubscribe of its key, a release or unsubscribe of its own interest, or the teardown |
| `EventSubscriptions.OnlyItsOwnTriple` | apps/mcp_gateway/src/kernel.ts:215-237 | if its three names and all interest names are NUL-free it is still stored iff nothing since was its failure, an unsubscribe of the same interest, object and event, a release or unsubscribe of its own interest, or the teardown |
| `EventSubscriptions.ReleaseCancelsAnother` | apps/mcp_gateway/src/tools.ts:346-356 | a run in which releasing one interest cancels a live subscription of another that stays open |
| `EventSubscriptions.CancelsAcrossIff` | apps/mcp_gateway/src/tools.ts:346-356 | such a run exists for two names iff one of them starts with the other and a NUL |
| `EventSubscriptions.GatewayKernel.constructor` | apps/mcp_gateway/src/kernel.ts:59-66 | a new kernel has no interests and no subscriptions |
| `EventSubscriptions.GatewayKernel.ReserveInterestSlot` | apps/mcp_gateway/src/kernel.ts:80-91 | reserves iff the name is neither open nor pending and fewer than 64 are, and then exactly adds it |
| `EventSubscriptions.GatewayKernel.CommitInterest` | apps/mcp_gateway/src/kernel.ts:93-96 | a pending name becomes an open interest |
| `EventSubscriptions.GatewayKernel.ReleaseInterestSlot` | apps/mcp_gateway/src/kernel.ts:98-100 | a pending name is given up; any other changes nothing |
| `EventSubscriptions.GatewayKernel.SubscribeToEvent` | apps/mcp_gateway/src/kernel.ts:161-205 | waits on a pending attempt, reports an existing handler or installs one; fails without change for an unknown interest or object |
| `EventSubscriptions.GatewayKernel.TrySubscribe` | apps/mcp_gateway/src/kernel.ts:172-205 | from the key on, as a woken call continues: waits iff an attempt is pending, reports an existing handler, otherwise installs the next attempt |
| `EventSubscriptions.GatewayKernel.ResumeRider` | apps/mcp_gateway/src/kernel.ts:172-182 | a woken call reports "already subscribed" iff a handler is stored, and otherwise fails iff the kernel is shutting down or the interest is gone or another one |
| `EventSubscriptions.GatewayKernel.ResumeSubscribe` | apps/mcp_gateway/src/kernel.ts:209-224 | the attempt is no longer awaited and no longer pending under its key; a success leaves the handlers as they are, a failure takes exactly this attempt's away |
| `EventSubscriptions.GatewayKernel.UnsubscribeFromEvent` | apps/mcp_gateway/src/kernel.ts:227-237 | removes the handler and both entries, and says whether there was one |
| `EventSubscriptions.GatewayKernel.CancelByPrefix` | apps/mcp_gateway/src/kernel.ts:239-251 | cancels exactly the keys with the interest's prefix and returns their number |
| `EventSubscriptions.GatewayKernel.CloseInterest` | apps/mcp_gateway/src/tools.ts:346-356 | the events of the interest and the interest itself go in one step |
| `EventSubscriptions.GatewayKernel.BeginShutdown` | apps/mcp_gateway/src/kernel.ts:140-146 | shutdown starts once |
| `EventSubscriptions.GatewayKernel.TearDownAll` | apps/mcp_gateway/src/kernel.ts:153-153 | the loop tears down the events of every open interest |
| `EventSubscriptions.GatewayKernel.FinishShutdown` | apps/mcp_gateway/src/kernel.ts:157-158 | the interests are forgotten |
| `Registry.StepKeeps` | apps/mcp_gateway/src/kernel_registry.ts:16-73 | every step keeps each key equal to its kernel's name and the map equal to the kernels neither shutting down nor failed |
| `Registry.NoKernelIsStranded` | apps/mcp_gateway/src/kernel_registry.ts:16-73 | in every interleaving a kernel ever created is found under its name iff it is neither shutting down nor failed |
| `Registry.NameIsKeptIff` | apps/mcp_gateway/src/kernel_registry.ts:68-73 | a kernel keeps its name iff since then it was not disconnected, not all were shut down and its own dial did not fail; a late failure of an earlier holder does not evict it |
| `Registry.EndFreesName` | apps/mcp_gateway/src/kernel_registry.ts:32-39 | each of those ends frees the name and marks the kernel |
| `Registry.DialledIff` | apps/mcp_gateway/src/kernel_registry.ts:16-30 | in every run a kernel is being dialled iff its dial has neither succeeded nor failed, and has failed iff its dial has |
| `Registry.KernelRegistry.constructor` | apps/mcp_gateway/src/kernel_registry.ts:12-14 | a new registry is empty |
| `Registry.KernelRegistry.ConnectTo` | apps/mcp_gateway/src/kernel_registry.ts:16-23 | refuses a taken name, and as invalid exactly a name that is empty, longer than 64 or holds anything but letters, digits, dot, underscore and hyphen; otherwise the new kernel is found under it before the dial starts |
| `Registry.KernelRegistry.DialEnded` | apps/mcp_gateway/src/kernel_registry.ts:23-30 | a failed dial frees the name only if this kernel still holds it |
| `Registry.KernelRegistry.Release` | apps/mcp_gateway/src/kernel_registry.ts:71-73 | removes the entry only if it is this kernel's |
| `Registry.KernelRegistry.DisconnectFrom` | apps/mcp_gateway/src/kernel_registry.ts:32-39 | frees the name and shuts the kernel down, or reports that there is none |
| `Registry.KernelRegistry.ShutdownAll` | apps/mcp_gateway/src/kernel_registry.ts:62-66 | every kernel is shut down and the map is empty |
| `Registry.KernelRegistry.Resolve` | apps/mcp_gateway/src/kernel_registry.ts:41-56 | by name, or without one the only live kernel there is, an error exactly when there is none or more than one; never one that is shutting down or failed |

## Left out

- Sockets, timers, the operating system's port probing and the parsing of addresses and ports: they appear as events, parameters or already parsed values.
- The contents of beams and control messages, and the hash and checksum functions: the model works on their bytes and on arbitrary values.
- The approximate size and per-producer order of the concurrent queue: a linearizable FIFO is assumed.
- Several peers at once (`readyProcesses_` is keyed by process id only), cached user data, and how often the loss of a process is reported: the protocol model is one connected pair.
- The UDP path, traffic counters, tracing, footprint reports and log or error texts.
- The collision probability and `analyzeConfiguredMulticastBuses`, which only maps configured names to allocations before the analysis.
- Pinned and ephemeral port binding, and the port part of `makeNetworkExclusions`: single calls without a loop.
- The event buffers of the gateway, reconnection of its client, and the objects in an interest's match-set: only whether the object is there matters.
- The gateway's glob length limit, which is checked before the matcher runs, and the argument readers and formatters of its tools.
- The hub's destructor, and an exception other than a `std::exception` while a beam is relayed, which leaves the handler.
- Timer expiry in the beam tracker is an event that may fire for any process at any time, so refreshing a timer changes nothing in the model.
