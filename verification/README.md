# Verification of the Starfish runtime's core

A Dafny model of the parts of Starfish whose correctness is hard to see from the code, with machine-checked proofs of
what they guarantee. Starfish is a thread-per-core runtime: an epoch-based memory reclamation scheme shared by all
reactors, a reactor loop per core, and a QUIC transport on top.

The model covers four components.

**Epoch-based reclamation** (`EpochBags`, `EpochProtocol`, `EpochSafety`, `EpochPins`, `EpochStall`). Reactors share a
global epoch; each has a local epoch, a pin count and three rotating bags of deferred allocations. `EpochBags` proves
the three intrusive lists against a plain collection of tagged allocations. `EpochProtocol` makes every atomic load,
store and compare-exchange of `bump_epoch`, `pin`, `repin` and `deferred_delete` a step of its own, over any number of
reactors and concurrent bumpers. `EpochSafety` proves the lag bound and the grace period over every interleaving, and
says exactly which deferrals are safe for which readers. `EpochPins` says what a pin observes, `EpochStall` says
exactly which guards keep every epoch where it is.

**QUIC data plane.** Each module pairs the connection's own loops, as methods, with the simple meaning they must agree
with.

- `StreamBuffer`, `StreamDelivery`, `StreamReceiver`: STREAM segments as a byte map; what a reader gets over every run
  of frames and reads.
- `CryptoReassembly`: CRYPTO frames in any order, up to the bytes TLS is fed.
- `AckRanges`, `AckFrames`: received packet numbers as ranges, and those ranges on the wire and back.
- `FrameSplitting`, `Packetiser`, `FramePieces`, `PassPackets`, `SendPath`, `ZeroRttPass`: splitting a frame at a
  budget, filling packets, and the pass over the three packet number spaces with refusals, re-queueing and 0-RTT.
- `DataFrameCodec`: CRYPTO and STREAM frames as bytes, whose lengths are the sizes splitting reckons with, and payloads
  that mix them with other frames.
- `StreamTransfer`: one stream from the send queue through packets, in any order, to the reader.
- `PeerPaths`: per-path byte accounting behind a cached active path, and the anti-amplification limit.
- `PathMtu`: the probe search and where it ends.
- `PacketNumbers`, `NonceUse`, `KeyFreshness`, `PacketBuilder`: numbers under keys over a connection's life, failed
  attempts included, and which keys are used when.
- `PacketNumberCodec`: truncated numbers on the wire.
- `EcnFeedback`, `EcnHonesty`: which ECN counts of a peer are believed, and when an honest peer is.

**Reactor loop** (`ReactorWakeup`, `ReactorAccounts`, `ReactorTurns`). The sleeping-flag handshake with any number of
senders and shutdown setters over a memory with store buffers, and the bounded priority of external futures over I/O
completions.

**Endpoint tables** (`EndpointTables`, `EndpointRuns`). The maps, queue and set of a multi-connection endpoint over
every run.

State that the code updates in place is a class whose methods are proved against functions of the old state; what those
functions guarantee over whole runs is proved as lemmas. Protocols between threads are state machines over their steps.
`dafny verify dfyconfig.toml` checks everything.

## Where the code does less than hoped for

Some natural properties are false of the code as it stands. In each case the model keeps the code, the first member
named gives a concrete input or run that breaks the property, and the last states exactly when it holds.

- A deferral is tagged with the deferring reactor's local epoch, which may lag the global epoch by one. A reader pinned
  one epoch ahead is then not covered by the two-epoch rule: `EpochSafety.LaggingTagUnsafe`,
  `EpochSafety.ReaderSafetyExactly`.
- `repin` compares the global epoch with the guard's own, not with the reactor's. A guard repinned while nested and then
  left alone never moves its reactor again, and no reactor advances until it is dropped: `EpochStall.StallReached`,
  `EpochStall.StallExactly`.
- `bump_epoch` compares raw 32-bit epochs; the comparison is wrong exactly when the global epoch has wrapped to zero
  with a reactor behind: `EpochSafety.RawTestWraps`, `EpochSafety.RawTestExactly`.
- A STREAM frame that starts below the read offset and reaches it leaves a segment that hides the next byte from
  `stream_recv` for good: `StreamDelivery.RetransmissionStalls`, `StreamDelivery.StallIsPermanent`,
  `StreamDelivery.ProgressExactly`.
- Buffering returns early when no byte is new, before it merges touching segments (`connection.rs` lines 4536-4538), so
  maximal segments are kept but not re-established: `StreamBuffer.TouchingSegmentsStay`,
  `StreamBuffer.BufferStreamRecvData`. A receiving stream never holds touching segments: they are excluded by
  `StreamReceiver.RecvStream.Valid`.
- The comment on `split_frame` names two reasons for `None`; the code also returns it when not even one data byte fits.
  The packetiser then drops the frame: `Packetiser.FrameLost`, `Packetiser.ConservesExactly`.
- An application packet is gated without the coalesced bytes still unsent: `PeerPaths.CoalescedFlightExceeds`,
  `PeerPaths.AmplificationExactly`.
- A Retry that names the original connection ID restores the same Initial keys with numbering from zero:
  `PacketNumbers.SameCidRepeats`, `PacketNumbers.UniqueExactly`.
- The gates before encryption are there so that no number is used twice. The header-protection cipher comes after it and
  may fail, which leaves the number to the next packet: `NonceUse.FailureRepeats`, `NonceUse.NonceUniqueExactly`.
- Marked packets that elicit no ACK are neither counted as sent nor tracked, while an honest peer counts them; its next
  report then ends ECN: `EcnHonesty.AckOnlyPacketEndsEcn`, `EcnHonesty.EcnStaysOnExactly`.
- An accepted connection is queued again by its next report: `EndpointTables.AcceptedAgain`,
  `EndpointTables.OfferedAgainExactly`.
- Two connections may report the same ID; the later report takes the route: `EndpointTables.EmptyIdsClash`,
  `EndpointTables.EveryRunExact`.

One branch is dead: the endpoint's stateless-reset lookup is never reached, because a token's connection ID always has a
route: `EndpointTables.RoutesReachLive`.

## Model

| member | source | states |
|---|---|---|
| EpochBags.SingleTagPerBag | starfish-epoch/src/epoch.rs:333-357 | A current generation holds at most two tags: the slot of epoch E only E, the slot before it only E - 1, the third slot nothing. |
| EpochBags.ReclaimRefinesPlainList | starfish-epoch/src/epoch.rs:359-371 | For any gap between the epochs, the replay capped at three frees exactly the entries with tag + 2 <= current, keeps exactly the others, and leaves the bags current. |
| EpochBags.ReplayIsCapped | starfish-epoch/src/epoch.rs:359-371 | The replay visits as many slots as the epochs are apart, three at most; epochs three or more apart, or wrapped, give up everything once. |
| EpochBags.EveryRunFreesOnce | starfish-epoch/src/epoch.rs:327-371 | Over every run of deferrals and advances, freed and still bagged entries are together exactly the deferred ones, nothing is freed early and nothing expired is kept; so the final drop frees the rest once. |
| EpochBags.DeferredList.Append | starfish-epoch/src/epoch.rs:280-294 | Pushes the node on the front of the intrusive list and keeps the rest in order. |
| EpochBags.DeferredList.Reclaim | starfish-epoch/src/epoch.rs:296-324 | Gives back every node of the list exactly once: in list order, without a repeat, and leaves it empty. |
| EpochBags.EpochGenerations.constructor | starfish-epoch/src/epoch.rs:342-351 | Starts with three empty bags. |
| EpochBags.EpochGenerations.DeferAt | starfish-epoch/src/epoch.rs:353-357 | The linked lists change exactly as the tagged bags do: the node joins the bag of its epoch. |
| EpochBags.EpochGenerations.ReclaimBetween | starfish-epoch/src/epoch.rs:359-371 | The linked lists change and give back nodes exactly as the tagged bags do. |
| EpochBags.EpochGenerations.DropAll | starfish-epoch/src/epoch.rs:327-331 | Dropping the bags gives back every remaining allocation once. |
| EpochProtocol.StepInv | starfish-epoch/src/epoch.rs:70-120 | Every step of every reactor and bumper keeps the joint invariant of epochs, guards, bumps in progress, bags and deferral history. |
| EpochProtocol.BumpFinishInv | starfish-epoch/src/epoch.rs:70-93 | A bump that read the slots one at a time while they moved still advances the global epoch only when no reactor is behind. |
| EpochProtocol.RepinStoreInv | starfish-epoch/src/epoch.rs:507-525 | Storing the local epoch after a reclaim from the guard's own epoch keeps the invariant, with nested guards repinned in any order. |
| EpochSafety.LagBound | starfish-epoch/src/epoch.rs:408-426 | In every reachable state each local epoch is the global epoch or one less, and no step moves an epoch back. |
| EpochPins.PinObservesGlobal | starfish-epoch/src/epoch.rs:408-426 | Whatever an unpinned reactor goes through, a guard it holds later is pinned at an epoch no older than the global one was before. |
| EpochPins.PinCompletes | starfish-epoch/src/epoch.rs:408-426 | An unpinned reactor can always pin, in two or three steps of its own, at the global epoch. |
| EpochPins.BumpIsOver | starfish-epoch/src/epoch.rs:70-93 | A finished bump is over, and another may begin. |
| EpochSafety.GracePeriod | starfish-epoch/src/epoch.rs:365-371 | When any step frees an allocation tagged E, every guard still live on any reactor has observed an epoch above E. |
| EpochSafety.ReaderSafetyExactly | starfish-epoch/src/epoch.rs:163-182 | No continuation frees the allocation under a guard live at its deferral, exactly when no pinned reactor is ahead of the deferring one. |
| EpochSafety.CurrentTagIsSafe | starfish-epoch/src/epoch.rs:163-182 | A deferral tagged with the global epoch is safe for every guard live at that moment, in every continuation. |
| EpochSafety.UnsafeIfAhead | starfish-epoch/src/epoch.rs:163-182 | From any state with a pinned reactor ahead there is a schedule that frees the allocation under its guard. |
| EpochSafety.LaggingTagUnsafe | starfish-epoch/src/epoch.rs:163-182 | A run of two reactors from the start, after which a deferral by the lagging one is freed under the other's guard in some continuation. |
| EpochSafety.RawTestExactly | starfish-epoch/src/epoch.rs:70-80 | Under the lag bound the 32-bit comparison agrees with the unbounded one, unless the global epoch has wrapped to zero with a laggard. |
| EpochSafety.RawTestWraps | starfish-epoch/src/epoch.rs:70-80 | The wrapped global epoch 2^32 with a reactor one behind, where the 32-bit test lets the bump through. |
| EpochStall.StallExactly | starfish-epoch/src/epoch.rs:504-525 | A guard on a lagging reactor holds the reactor and the global epoch in every continuation that does not drop it, exactly when it carries the global epoch already or a nested repin has loaded it. |
| EpochStall.StuckRun | starfish-epoch/src/epoch.rs:504-525 | From there no run that keeps the guard moves either epoch, whatever is pinned, repinned or bumped. |
| EpochStall.CatchesUp | starfish-epoch/src/epoch.rs:504-525 | From any other state of a lagging reactor there is a run that keeps the guard and brings the reactor to the global epoch. |
| EpochStall.BornLocal | starfish-epoch/src/epoch.rs:408-426 | In every run a guard that is not repinned carries its reactor's local epoch from the pin that made it on. |
| EpochStall.OnlyRepinsStall | starfish-epoch/src/epoch.rs:504-525 | So in every run from the start a guard that holds the epoch of all reactors has been repinned. |
| EpochStall.StallKeepsGarbage | starfish-epoch/src/epoch.rs:365-371 | While the guard is held no reactor frees anything but what was two epochs old when the stall began. |
| EpochStall.StallReached | starfish-epoch/src/epoch.rs:504-525 | A nine-step run of one reactor from the start into such a state, with one guard left. |
| StreamBuffer.SortedSegments | starfish-quic/src/connection.rs:4547-4552 | Lists every stored segment once, by ascending start. |
| StreamBuffer.CoalesceStreamRecvData | starfish-quic/src/connection.rs:4547-4567 | Merging touching segments changes no stored byte and leaves maximal runs. |
| StreamBuffer.BufferStreamRecvData | starfish-quic/src/connection.rs:4501-4545 | From any disjoint segments, the byte map afterwards is the old one extended with the new bytes where nothing was stored; the segments stay disjoint, and are maximal runs exactly when they were before or some byte is new. |
| StreamBuffer.TouchingSegmentsStay | starfish-quic/src/connection.rs:4536-4538 | Two touching segments that a frame without a new byte leaves apart. |
| StreamDelivery.DeliverySafety | starfish-quic/src/connection.rs:2060-2122 | With all frames cut from one source, in any order with any overlap, the reads of every run concatenate to the source prefix of length recv_offset. |
| StreamDelivery.ProgressExactly | starfish-quic/src/connection.rs:2087-2107 | In every run a read with room returns data exactly when the next byte has arrived and no frame met at this read offset straddles it. |
| StreamDelivery.ForwardFramesNeverStall | starfish-quic/src/connection.rs:2087-2107 | If each frame starts at or beyond the read offset it meets, a read returns data exactly when the next byte has arrived. |
| StreamDelivery.RetransmissionStalls | starfish-quic/src/connection.rs:4501-4545 | A run in which the next byte has arrived and the read returns nothing, now and in every continuation. |
| StreamDelivery.StallIsPermanent | starfish-quic/src/connection.rs:2087-2107 | From any reachable state whose read offset is straddled, no continuation delivers another byte, whatever arrives. |
| StreamDelivery.ReadsProgress | starfish-quic/src/connection.rs:2087-2107 | Where no frame straddled and every byte below n has arrived, each read with room moves on until byte n. |
| StreamDelivery.CoverageIsArrival | starfish-quic/src/connection.rs:4569-4600 | Coverage of the buffer from the read offset to the final size is the same as every byte below it having arrived. |
| StreamDelivery.ReadsUnique | starfish-quic/src/connection.rs:2087-2107 | What a read returns is determined by the stored bytes and the room. |
| StreamReceiver.StreamHasReceivedAllData | starfish-quic/src/connection.rs:4569-4600 | For any buffer the sort-and-sweep is true exactly when the final size is known and every byte from the read offset up to it is stored. |
| StreamReceiver.NextChunk | starfish-quic/src/connection.rs:2090-2103 | Takes the stored bytes from the read offset, as many as fit, and leaves exactly the others stored. |
| StreamReceiver.CopyOut | starfish-quic/src/connection.rs:2087-2107 | The copying loop returns what a read of the byte map returns and removes exactly those bytes. |
| StreamReceiver.RecvStream.constructor | starfish-quic/src/connection.rs:2993-2996 | A stream begins empty, receiving, with no final size and nothing received. |
| StreamReceiver.RecvStream.OnStreamFrame | starfish-quic/src/connection.rs:2998-3069 | A STREAM frame extends the byte map, also when only its FIN is refused. A FIN is refused exactly when an earlier frame within range reached beyond it or another final size is known; a frame exactly when it passes the offset range or the final size; flow control exactly when some frame so far passes the limit. Errors change neither final size nor state; DataRecvd is entered exactly on full coverage. |
| StreamReceiver.RecvStream.Admit | starfish-quic/src/connection.rs:2998-3043 | The checks come in that order, and the highest end received counts every frame within range and final size, also one that flow control refuses. |
| StreamReceiver.RecvStream.MarkFinal | starfish-quic/src/connection.rs:900-924 | A final size is accepted exactly when it agrees with an earlier one and is not below received data. |
| StreamReceiver.RecvStream.OnResetFrame | starfish-quic/src/connection.rs:3101-3124 | A reset is accepted exactly when its final size agrees with an earlier one and no frame reached beyond it; it gives up what is buffered and nothing else. |
| StreamReceiver.RecvStream.StreamRecv | starfish-quic/src/connection.rs:2060-2122 | A read is a read of the byte map, reports FIN exactly at the final size, and reports a reset once. |
| CryptoReassembly.SettledIsFrontier | starfish-quic/src/connection.rs:3354-3386 | Once no buffered chunk holds the next byte, what was fed has the length of the longest prefix covered by all frames. |
| CryptoReassembly.FedIsSourcePrefix | starfish-quic/src/connection.rs:3343-3352 | With all frames cut from one source, the bytes fed to TLS are a prefix of it, without gap or repeat. |
| CryptoReassembly.OrderIrrelevant | starfish-quic/src/connection.rs:3315-3386 | The covered prefix depends only on which frames arrived, not on their order or repetition. |
| CryptoReassembly.BufferedKeeps | starfish-quic/src/connection.rs:3329-3342 | A buffered chunk gives way only to a longer one with the same start. |
| CryptoReassembly.RemoveStale | starfish-quic/src/connection.rs:3357-3365 | Removes exactly the chunks that end at or below the offset. |
| CryptoReassembly.FindNext | starfish-quic/src/connection.rs:3367-3372 | Finds the largest start whose chunk holds the next byte, and nothing exactly when there is none. |
| CryptoReassembly.CryptoStream.Drain | starfish-quic/src/connection.rs:3354-3386 | The drain loop ends, feeds only unread tails, and leaves no feedable chunk. |
| CryptoReassembly.CryptoStream.OnCryptoFrame | starfish-quic/src/connection.rs:3315-3386 | After every accepted frame the receive offset is the longest prefix covered by the frames so far; a TLS refusal leaves the bytes fed a gapless extension. |
| CryptoReassembly.ReceiveAll | starfish-quic/src/connection.rs:3315-3386 | Over a whole run TLS is fed a prefix of the source, and while it accepts, the longest one the frames cover. |
| AckRanges.Canonical | starfish-quic/src/connection.rs:4447-4448 | Two well-formed range lists with the same numbers are equal. |
| AckRanges.InsertIndex | starfish-quic/src/connection.rs:4451-4454 | Finds the first range wholly below the number. |
| AckRanges.MergeAt | starfish-quic/src/connection.rs:4469-4489 | The new range covers the number and the neighbours it touches, nothing else, and touches no other. |
| AckRanges.RecordRecvPn | starfish-quic/src/connection.rs:4449-4495 | The result is the canonical form of the old numbers plus the new one, less only the lowest range when there would be 33. |
| AckRanges.InsertedUnique | starfish-quic/src/connection.rs:4491-4494 | That describes one result only. |
| AckRanges.LargestKept | starfish-quic/src/connection.rs:2824-2831 | The top range always ends at the largest number received, through every insertion and cut. |
| AckRanges.RecvSpace.OnPacket | starfish-quic/src/connection.rs:2824-2835 | After any arrivals the ranges, the largest number and the received flag describe exactly the packets since the last reset; numbers are given up only below 32 full ranges. |
| AckRanges.RecvSpace.Reset | starfish-quic/src/connection.rs:2642-2647 | A Retry forgets the space completely. |
| AckRanges.RecvSpace.GenerateAck | starfish-quic/src/connection.rs:3579-3598 | A generated ACK reports the largest number received and exactly the numbers received and not given up. |
| AckFrames.RoundTripExactly | starfish-quic/src/frame/ack.rs:41-75 | The peer decodes the ranges sent, if and only if they are non-empty, well-formed and topped by the largest acknowledged number. |
| AckFrames.AcceptedIsWellFormed | starfish-quic/src/frame/ack.rs:90-138 | Every accepted frame yields well-formed ranges topped by its largest number, and is their only encoding. |
| AckFrames.Encode | starfish-quic/src/frame/ack.rs:57-72 | The encoding loop computes the gap and length fields the round trip is proved for. |
| AckFrames.DecodeAckFrame | starfish-quic/src/frame/ack.rs:105-138 | The decoding loop accepts and refuses as the recursive reading does. |
| AckFrames.SendAck | starfish-quic/src/connection.rs:3590-3598 | Every ACK a tracked space generates survives encoding and decoding with exactly its numbers. |
| AckFrames.NoRangesAckLargest | starfish-quic/src/frame/ack.rs:41-56 | Without ranges a frame acknowledges its largest number alone. |
| FrameSplitting.SplitPoint | starfish-quic/src/connection.rs:3715-3732 | For any non-decreasing size function the binary search finds the longest fitting proper prefix, 0 if none fits. |
| FrameSplitting.SplitFrame | starfish-quic/src/connection.rs:3704-3794 | Splits exactly when the frame carries at least two bytes, does not fit and has room for one; the parts are the frame cut at the longest fitting prefix. |
| FrameSplitting.CanSplitExactly | starfish-quic/src/connection.rs:3704-3732 | A frame can be split exactly when it encodes, does not fit whole, and some proper prefix with data does. |
| FrameSplitting.SplitIsOptimal | starfish-quic/src/connection.rs:3733-3744 | The head fits and no longer proper prefix would; head and tail are the bytes in order at contiguous offsets, FIN only on the tail. |
| Packetiser.SplitAtoms | starfish-quic/src/connection.rs:3778-3790 | Splitting loses, repeats and reorders no byte and no FIN. |
| Packetiser.OversizedExactly | starfish-quic/src/connection.rs:4339-4368 | A frame above the limit goes out whole exactly if it is no data frame, or nothing at all would fit. |
| Packetiser.FillConserves | starfish-quic/src/connection.rs:4339-4368 | What one packet takes, drops and leaves is, in order, what was queued. |
| Packetiser.FillFits | starfish-quic/src/connection.rs:4339-4368 | A packet stays within its payload limit unless its first frame alone exceeds it. |
| Packetiser.FillProgress | starfish-quic/src/connection.rs:4308-4372 | Every packet consumes queued bytes or frames, so building packets ends. |
| Packetiser.FillLosesExactly | starfish-quic/src/connection.rs:4348-4357 | A frame is dropped exactly when the first one that does not go in whole carries data and has no room for a byte. |
| Packetiser.PassAccounts | starfish-quic/src/connection.rs:4308-4422 | Every queued byte, FIN and control frame is in a packet, back in the queue, or in a dropped frame. |
| Packetiser.ConservesExactly | starfish-quic/src/connection.rs:4308-4427 | Packets followed by the queue carry, in order, what was queued, exactly when every split attempt has room for one data byte. |
| Packetiser.OpenPassEmpties | starfish-quic/src/connection.rs:4308-4422 | With every gate open and nothing dropped, a pass leaves nothing queued. |
| FramePieces.PassPieces | starfish-quic/src/connection.rs:4308-4422 | Packets and queue hold only frames that were queued, or pieces of the same stream or of CRYPTO data. |
| PassPackets.PacketsFit | starfish-quic/src/connection.rs:4308-4422 | Every packet built was let through by its own gate and is within its limit, unless it is a single larger frame. |
| PassPackets.EndedByGate | starfish-quic/src/connection.rs:4374-4395 | What stays queued with nothing dropped was stopped by the gate of the next packet. |
| Packetiser.FrameLost | starfish-quic/src/connection.rs:4348-4357 | At the payload limit of 1356 bytes, a queue of two frames of which one is neither sent nor kept. |
| SendPath.FillPacket | starfish-quic/src/connection.rs:4336-4368 | The filling loop takes, keeps and drops as the recursive filling does, and succeeds whenever every frame encodes. |
| SendPath.SendableExactly | starfish-quic/src/connection.rs:4339-4347 | A frame is safe to queue exactly when it and every tail that splitting may leave of it encode. |
| SendPath.SendSpace | starfish-quic/src/connection.rs:4306-4422 | The packet loop of a space ends and yields the packets, queue and losses of the recursive pass; a refused packet's frames return to the front in order. |
| SendPath.Separate | starfish-quic/src/connection.rs:4277-4287 | Splits the queue into the space's frames and the others, both in order. |
| SendPath.FilterZeroRtt | starfish-quic/src/connection.rs:4289-4304 | Splits frames into those 0-RTT may carry and the barred ones (ACK, CRYPTO, HANDSHAKE_DONE, NEW_TOKEN, PATH_RESPONSE, RETIRE_CONNECTION_ID), both in order. |
| SendPath.AllowedIs | starfish-quic/src/connection.rs:753-763 | The frames set aside are exactly the barred ones, in order. |
| SendPath.OutcomeAccounts | starfish-quic/src/connection.rs:4289-4427 | Without keys, with keys or in 0-RTT, the content of a space queued before equals that sent, kept and lost. |
| SendPath.FrameQueue.SendFrom | starfish-quic/src/connection.rs:4266-4427 | One space's turn does to its own queue what the outcome says and leaves the other spaces' queues as they were. |
| SendPath.FrameQueue.SendPendingFrames | starfish-quic/src/connection.rs:4262-4427 | The whole pass does so for all three spaces. |
| SendPath.PassConserves | starfish-quic/src/connection.rs:4262-4427 | After a pass, space by space, content is conserved up to dropped frames, untouched without keys, and conserved in order exactly when every split attempt has room; in 0-RTT the same of the frames it may carry, the others kept in order ahead. |
| ZeroRttPass.ZeroRttSends | starfish-quic/src/connection.rs:4289-4304 | No packet of a 0-RTT pass holds a barred frame; every barred frame is still queued, in order; with every gate open and nothing dropped, nothing else is, so every STREAM frame has gone out. |
| ZeroRttPass.KeyedSends | starfish-quic/src/connection.rs:4308-4422 | With keys, open gates and nothing dropped the space's queue is empty afterwards, its packets being the queued frames or pieces of them. |
| DataFrameCodec.EncodeVarint | starfish-quic/src/packet/mod.rs:97-125 | A value up to 2^62 - 1 takes exactly the bytes `varint_len` reckons. |
| DataFrameCodec.VarintRoundTrip | starfish-quic/src/packet/mod.rs:128-165 | An encoded value is read back whatever follows it, and nothing of what follows is consumed. |
| DataFrameCodec.EncodeFrame | starfish-quic/src/frame/crypto.rs:20-26 | The bytes of a data frame number exactly its encoded size. |
| DataFrameCodec.FrameRoundTrip | starfish-quic/src/frame/stream.rs:37-106 | Every CRYPTO or STREAM frame that encodes is decoded as itself, whatever follows it, consuming exactly its size. |
| DataFrameCodec.StreamFormRoundTrip | starfish-quic/src/frame/stream.rs:51-106 | All eight forms of a STREAM frame are decoded: without an offset field as offset 0, without a length field to the end of the payload. |
| DataFrameCodec.ItemRoundTrip | starfish-quic/src/frame/mod.rs:240-262 | So is padding, one zero byte, and a frame of another type whose fields end by themselves. |
| DataFrameCodec.DecodeFrames | starfish-quic/src/frame/mod.rs:488-496 | The payload loop ends and decodes frame after frame, of every type and padding included, refusing the payload at the first that does not decode. |
| DataFrameCodec.PayloadRoundTrip | starfish-quic/src/frame/mod.rs:488-496 | A payload of data frames, padding and frames of any other types is read back as exactly those. |
| DataFrameCodec.SplitOnTheWire | starfish-quic/src/connection.rs:4348-4356 | Both parts of a split are read back as cut, and the head's bytes stay within the budget. |
| StreamTransfer.BytesSurvive | starfish-quic/src/connection.rs:4308-4427 | While every split attempt has room, a stream byte is in the packets or the queue afterwards exactly if it was queued. |
| StreamTransfer.QueueReachesReader | starfish-quic/src/connection.rs:4308-4427 | Once a pass has emptied the queue and its packets have arrived, in any order and with repetition, exactly the queued bytes have arrived and the reads are the source prefix. |
| StreamTransfer.ReaderGetsAll | starfish-quic/src/connection.rs:4308-4427 | If besides no frame straddles the read offset it meets, any further reads with room, as many as the queued prefix has bytes, deliver that prefix whole. |
| PeerPaths.BuiltBytesCounted | starfish-quic/src/connection.rs:4374-4422 | Every byte let through is counted once, as sent or as unsent, and only on the path in use. |
| PeerPaths.AccountsAre | starfish-quic/src/connection.rs:459-495 | Over every run, until it is validated, a path's bytes received are the sum of its datagrams and its bytes sent or built the sum of what the gates let through, both saturating. |
| PeerPaths.ValidatedAccountsStay | starfish-quic/src/connection.rs:459-495 | A validated path's account never changes. |
| PeerPaths.DatagramSizes | starfish-quic/src/connection.rs:4406-4420 | A packet joins the coalesced datagram whenever it fits, and only then. |
| PeerPaths.ActiveIs | starfish-quic/src/connection.rs:435-457 | The path in use is the last one switched to. |
| PeerPaths.AmplificationExactly | starfish-quic/src/connection.rs:4374-4422 | Over every run the limit holds after each step, exactly when every application packet let through would also pass counting the coalesced bytes. |
| PeerPaths.WithinLimitMeans | starfish-quic/src/connection.rs:1537-1551 | The limit means bytes sent at most three times bytes received, saturation included. |
| PeerPaths.CoalescedFlightExceeds | starfish-quic/src/connection.rs:4374-4378 | A first flight of 3700 bytes for 1200 received. |
| PeerPaths.ValidationPerPath | starfish-quic/src/connection.rs:497-509 | Over every run a path is validated exactly if it was, or an event validated that very path. |
| PeerPaths.PathTable.constructor | starfish-quic/src/connection.rs:941-948 | The map starts with the peer's path alone: validated on a client, validated or not on a server. |
| PeerPaths.PathTable.PeerPathStateForAddr | starfish-quic/src/connection.rs:408-418 | The cached state or the map's entry is the plain map's entry, for every address. |
| PeerPaths.PathTable.StoreActivePeerPathState | starfish-quic/src/connection.rs:420-433 | Writing the cache back makes the map equal to the plain map. |
| PeerPaths.PathTable.SetActivePeerAddr | starfish-quic/src/connection.rs:435-457 | Switching paths changes no path's state. |
| PeerPaths.PathTable.RecordUnvalidatedBytesReceived | starfish-quic/src/connection.rs:459-476 | Counts on the plain map, whichever copy holds the path. |
| PeerPaths.PathTable.RecordUnvalidatedBytesSent | starfish-quic/src/connection.rs:478-495 | Counts on the plain map, whichever copy holds the path. |
| PeerPaths.PathTable.MarkPeerPathValidated | starfish-quic/src/connection.rs:497-509 | Validates that path and no other. |
| PeerPaths.PathTable.ProcessPathResponse | starfish-quic/src/connection.rs:1337-1369 | Exactly the answer to the pending challenge, from its address, validates and activates the path. |
| PeerPaths.PathTable.CanSendToAddr | starfish-quic/src/connection.rs:1537-1551 | The gate is the plain map's limit; a client is never limited. |
| PeerPaths.PathTable.BuildLongHeaderPacket | starfish-quic/src/connection.rs:4406-4420 | An Initial or Handshake packet is gated with the coalesced bytes and then joins or follows them. |
| PeerPaths.PathTable.BuildApplicationPacket | starfish-quic/src/connection.rs:4396-4405 | An application packet is gated alone and sent after the coalesced datagram. |
| PathMtu.ProbeInRange | starfish-quic/src/connection.rs:1589-1604 | There is a probe exactly while the limit is above the size in use and that is not zero, and it lies between them. |
| PathMtu.ProbeIs | starfish-quic/src/connection.rs:1589-1604 | The probe is twice the size in use while the limit allows, then the middle of the gap, rounded up. |
| PathMtu.EveryRunSound | starfish-quic/src/connection.rs:1614-1666 | Over every run of probes, acknowledgements, losses and abandonments the size in use is the initial one or an acknowledged probe's, never shrinks and stays within the initial limit. |
| PathMtu.EveryRunBound | starfish-quic/src/connection.rs:1645-1666 | The upper bound is the one the run began with or one below a size lost, and below every size lost. |
| PathMtu.ProbeWaits | starfish-quic/src/connection.rs:1614-1666 | A probe in flight waits, with nothing changed, for an event with its own number, which ends it. |
| PathMtu.NothingToResolve | starfish-quic/src/connection.rs:1614-1666 | Without a probe in flight only sending one changes anything. |
| PathMtu.ConvergesToMtu | starfish-quic/src/connection.rs:1589-1666 | On a path delivering exactly sizes up to M the search ends at min(M, limit), or where it began if that is already too large. |
| PathMtu.LogarithmicallyManyProbes | starfish-quic/src/connection.rs:1589-1666 | It takes at most 2 * digits(limit) + 1 probes, digits counted in binary. |
| PathMtu.ScheduleEnds | starfish-quic/src/connection.rs:1614-1666 | The connection's own events follow that search, two for each probe, to a state with no probe left. |
| PathMtu.PathMtuState.constructor | starfish-quic/src/connection.rs:136-145 | Starts at 1472, limited to 1472 by the peer and to 65527 locally, with nothing in flight. |
| PathMtu.PathMtuState.ApplyPeerLimit | starfish-quic/src/connection.rs:550-563 | The size in use comes down to the peer's limit exactly as far as needed, and a probe in flight is dropped exactly if it exceeds it. |
| PathMtu.PathMtuState.SendProbe | starfish-quic/src/connection.rs:4206-4234 | Sends the next probe, or nothing when one is in flight or none is left. |
| PathMtu.PathMtuState.CompleteProbeSuccess | starfish-quic/src/connection.rs:1614-1625 | Only the probe in flight, by its number, becomes the size in use. |
| PathMtu.PathMtuState.CompleteProbeFailure | starfish-quic/src/connection.rs:1645-1666 | Only the probe in flight, by its number, lowers the limit to below its size. |
| PathMtu.PathMtuState.AbandonProbe | starfish-quic/src/connection.rs:1627-1643 | Drops the probe in flight, by its number, without lowering the limit. |
| PacketNumbers.UniqueExactly | starfish-quic/src/connection.rs:2602-2643 | Over every run no two packets share a key and a number, except exactly when a client's first Retry names the original connection ID and Initial packets are asked for, with the keys installed, before it and after it. |
| PacketNumbers.UniqueUnlessSameCid | starfish-quic/src/connection.rs:2633-2643 | A server, or a client whose Retry names another connection ID, never repeats a number under a key. |
| PacketNumbers.SameCidRepeats | starfish-quic/src/connection.rs:2633-2643 | The three-step run that repeats one. |
| PacketNumbers.NumbersConsecutive | starfish-quic/src/connection.rs:3853-3973 | In every run the packets of a space are numbered 0, 1, 2 and so on, from 0 again in the Initial space after the Retry. |
| PacketNumbers.StepInv | starfish-quic/src/connection.rs:3853-3973 | Each build, installation, update, trial, discard and Retry keeps numbers ascending within their numbering, under keys of their own space. |
| NonceUse.NonceUniqueExactly | starfish-quic/src/connection.rs:3931-3973 | Over every run with header-protection failures anywhere, no key is used twice with a number, except exactly when a failure is followed by an encryption under its key before a packet of the space is returned or a Retry resets it, or a client's first Retry names the original connection ID with Initial packets attempted before and after it. |
| NonceUse.RepeatedIs | starfish-quic/src/connection.rs:3944-3973 | From any state, the run repeats a key at a number exactly when some failure is retried in that way. |
| NonceUse.NoFailureNoRepeat | starfish-quic/src/connection.rs:3931-3973 | Without such failures none is retried, and every encryption of every run is a packet returned. |
| NonceUse.FailureRepeats | starfish-quic/src/connection.rs:3944-3973 | The two-step run that repeats one. |
| NonceUse.StepKeeps | starfish-quic/src/connection.rs:3853-3973 | Each step keeps a key's numbers going up until a repeat is recorded, knows the keys tried with the next number, and has used number 0 of every Initial numbering in use. |
| KeyFreshness.EveryReplacementFresh | starfish-quic/src/connection.rs:1197-1228 | In every run an installation or update of keys makes the space send under a key no encryption has used, and leaves the numbers alone. |
| KeyFreshness.DiscardedStaysSilent | starfish-quic/src/connection.rs:3853-3973 | Once its keys are discarded a space encrypts nothing more, in any run that does not supply it again. |
| KeyFreshness.EarlyRun | starfish-quic/src/connection.rs:738-750 | Over every run no 0-RTT encryption follows a 1-RTT one, and a server makes none. |
| KeyFreshness.ZeroRttInstalled | starfish-quic/src/connection.rs:738-750 | 0-RTT keys let a client send application packets exactly until there are 1-RTT keys. |
| PacketBuilder.PaddedSampleFits | starfish-quic/src/connection.rs:3922-3929 | The minimum plaintext length makes the header-protection sample fit for every encoder. |
| PacketBuilder.PaddingIsLeast | starfish-quic/src/connection.rs:3922-3929 | And no shorter plaintext would do, with nothing between number and payload. |
| PacketBuilder.PacketSender.BuildPacketToAddr | starfish-quic/src/connection.rs:3796-3984 | A packet is returned exactly when the key is there, both gates allow it, it encodes and both ciphers succeed; it takes the key and next number, which then advances. Which failures are silent refusals and which are errors is exact. A header-protection failure is an encryption that leaves the number; nothing else encrypts or changes anything. |
| PacketBuilder.PacketSender.ProcessRetry | starfish-quic/src/connection.rs:2592-2643 | Only a client's first Retry replaces the Initial keys and restarts Initial numbering. |
| PacketBuilder.PacketSender.InstallOneRttKeys | starfish-quic/src/connection.rs:3501-3512 | The application space sends under a key never used before; numbering stays, with secrets for updates and none pending. |
| PacketBuilder.PacketSender.InitiateKeyUpdate | starfish-quic/src/connection.rs:1197-1228 | Succeeds exactly with 1-RTT keys and secrets and no earlier update pending; the application space then sends under a key never used before, numbering stays, and the update waits for the peer. |
| PacketBuilder.PacketSender.TryDecryptWithNextKeys | starfish-quic/src/connection.rs:4610-4681 | The peer's answer to a pending update changes no local key and ends the wait; its own update makes the space send under a key never used before; a failed trial only advances the secrets; numbering never changes. |
| PacketNumberCodec.DecodesExactly | starfish-quic/src/packet/mod.rs:203-225 | A truncated number is reconstructed exactly when it is within half a window of the expected one, or at an end of the range. |
| PacketNumberCodec.RoundTripExactly | starfish-quic/src/packet/mod.rs:180-225 | With the sender's choice of length, for every pair of numbers, the number survives exactly when no packet half a window newer came first and, at four bytes, it is not further ahead than half a window, or it is at an end of the range. |
| PacketNumberCodec.LengthIsLeast | starfish-quic/src/packet/mod.rs:180-201 | The sender takes the fewest bytes whose half window exceeds the distance to the largest number acknowledged, four if none does. |
| EcnFeedback.EveryRunCountsHonestly | starfish-quic/src/connection.rs:1740-1800 | Over every run congestion signals equal the stored CE count, stored counts never go back nor sum to more than the distinct marked packets acknowledged, and ECN stays off once off. |
| EcnFeedback.FreshRunCountsHonestly | starfish-quic/src/connection.rs:1740-1800 | From a fresh connection, all signals ever raised are the stored CE count, and the stored counts sum to at most the distinct marked packets acknowledged. |
| EcnHonesty.EcnStaysOnExactly | starfish-quic/src/connection.rs:1746-1800 | Against a peer that counts honestly ECN is on after a run exactly when every report on a new largest number followed the last one believed, counted no more packets since than it newly acknowledges, and no more arrivals than are counted as sent. |
| EcnHonesty.HonestRefusedExactly | starfish-quic/src/connection.rs:1775-1795 | A single honest report is refused exactly when it is not covered in that way. |
| EcnHonesty.AckOnlyPacketEndsEcn | starfish-quic/src/connection.rs:4003-4050 | A marked packet that elicits no ACK is counted by the peer only, and the next honest report ends ECN. |
| EcnHonesty.SilentPeerExactly | starfish-quic/src/connection.rs:1767-1772 | With a peer that reports no counts ECN ends exactly at the first ACK on a new largest number that newly covers a marked packet. |
| EcnHonesty.FreshSentCounts | starfish-quic/src/connection.rs:4017-4029 | The counts sent are exactly the ack-eliciting marked packets. |
| EcnHonesty.InFlightExactly | starfish-quic/src/connection.rs:4041-4049 | A tracked packet is in flight, with its marking, exactly until an ACK newly covers it or it is given up. |
| EcnFeedback.BelievedOrOff | starfish-quic/src/connection.rs:1764-1795 | On a new largest number, ECN stays on only if the peer's counts are stored or there were none to report. |
| EcnFeedback.CeSignalsAre | starfish-quic/src/connection.rs:2930-2951 | The walk raises as many signals as the smaller of the CE delta and the marked packets. |
| EcnFeedback.MarkedCounts | starfish-quic/src/connection.rs:1758-1766 | The filtered counts are the number of distinct marked packets. |
| EcnFeedback.NewlyAcked | starfish-quic/src/recovery/loss_detection.rs:206-220 | Lists, each once, the packets in flight that some range covers. |
| EcnFeedback.SignalCe | starfish-quic/src/connection.rs:2934-2951 | The loop over acknowledged packets raises exactly the counted signals. |
| EcnFeedback.EcnState.OnPacketSent | starfish-quic/src/connection.rs:4017-4029 | A sent packet is counted if ack-eliciting and enters flight if tracked, with its marking. |
| EcnFeedback.EcnState.ValidateAckEcnAndCountCe | starfish-quic/src/connection.rs:1746-1800 | Stores the counts and returns the CE delta exactly when they do not go back, exceed what was sent, or exceed what is newly acknowledged. |
| EcnFeedback.EcnState.ProcessAck | starfish-quic/src/connection.rs:2899-2951 | An ACK takes its packets out of flight, applies the verdict and raises its signals. |
| ReactorWakeup.NoLostWakeupExactly | starfish-reactor/src/reactor.rs:449-489 | In every interleaving of any number of senders and setters, with the re-check's two loads apart, a blocked reactor with work has a wakeup pending, exactly when both halves of the handshake have their fence. |
| ReactorWakeup.RecheckExactly | starfish-reactor/src/reactor.rs:462-484 | Whatever others do between its two loads, the re-check keeps the reactor running exactly when the queue is non-empty then or the shutdown flag was set at its load with nothing active; otherwise it blocks. |
| ReactorWakeup.IdleBlocks | starfish-reactor/src/reactor.rs:459-484 | With no work and no shutdown a reactor does go to sleep, its flag up. |
| ReactorWakeup.FreshDoesNotSleep | starfish-reactor/src/reactor.rs:263-263 | A new reactor's shutdown flag is set: until another value is stored it does not block with nothing active. |
| ReactorWakeup.BlockedUntil | starfish-reactor/src/reactor.rs:484-489 | A blocked reactor stays so until it is woken or its wait ends, and then runs with its flag on the way down. |
| ReactorAccounts.StoresInOrder | starfish-reactor/src/reactor.rs:690-700 | Each thread's stores reach memory once each, in the order made. |
| ReactorAccounts.QueueConserved | starfish-reactor/src/reactor.rs:690-700 | Every push that lands is popped once or still queued, and the shutdown flag holds the last value that landed. |
| ReactorAccounts.OneWakePerStore | starfish-reactor/src/reactor.rs:823-833 | A thread wakes the reactor at most once for each store. |
| ReactorAccounts.TokensConserved | starfish-reactor/src/reactor.rs:823-833 | Every wake token taken comes from a wake call of its own, and stays until taken. |
| ReactorWakeup.StepInv | starfish-reactor/src/reactor.rs:449-489 | Every step keeps the invariant behind it. |
| ReactorWakeup.NewWorkPending | starfish-reactor/src/reactor.rs:690-700 | Work can only reach a blocked reactor from a thread that is still to test the flag and will find it set. |
| ReactorWakeup.PendingThreadWakes | starfish-reactor/src/reactor.rs:823-833 | The pending thread's own remaining steps get the reactor running again. |
| ReactorWakeup.SleeperNeedsFence | starfish-reactor/src/reactor.rs:462-470 | Without the sleeper's fence there is a run that loses a wakeup. |
| ReactorWakeup.SenderNeedsFence | starfish-reactor/src/reactor.rs:693-697 | Without the sender's fence there is a run that loses a wakeup. |
| ReactorTurns.ExternalRunsWithin | starfish-reactor/src/reactor.rs:343-368 | Whatever arrives, the external future at position p runs within p + 1 + (p + streak) / 8 turns. |
| ReactorTurns.IoDeliveredWithin | starfish-reactor/src/reactor.rs:343-368 | Whatever arrives, the completion at position p is delivered within 9 (p + 1) - streak turns. |
| ReactorTurns.NineTurnsDeliverIo | starfish-reactor/src/reactor.rs:343-368 | Nine turns from one that finds a completion ready deliver at least one. |
| ReactorTurns.TwoTurnsRunExternal | starfish-reactor/src/reactor.rs:343-368 | Two turns from one that finds an external future run at least one. |
| ReactorTurns.TurnServes | starfish-reactor/src/reactor.rs:343-385 | A turn is idle exactly with nothing to do; a timer runs exactly when due with neither external futures nor completions waiting; a local future only when no timer is due; each from the head of its queue. |
| ReactorTurns.EveryQueueInOrder | starfish-reactor/src/reactor.rs:343-385 | Every queue is served first in, first out over every run, nothing lost or repeated. |
| ReactorTurns.StreakCounts | starfish-reactor/src/reactor.rs:343-368 | After any run the streak is the number of external picks since the last other pick or idle turn, saturating. |
| ReactorTurns.SaturatedPattern | starfish-reactor/src/reactor.rs:224-226 | With both queues never empty the picks repeat eight externals and one completion. |
| ReactorTurns.Reactor.TakeCompletedIo | starfish-reactor/src/reactor.rs:280-300 | Takes the oldest completion, and nothing exactly when there is none. |
| ReactorTurns.Reactor.NextFuture | starfish-reactor/src/reactor.rs:343-385 | One turn of the loop's own queues is the turn the bounds are proved for. |
| EndpointTables.EveryRunAgrees | starfish-quic/src/server.rs:524-550 | After any run the queue has no repeats and equals its set, queued and routed handles are live, tokens have routes, no route outlives its report, and no handle is given out twice. |
| EndpointTables.RemovedHandlesForgotten | starfish-quic/src/server.rs:956-968 | Once a handle given out is not live it is in no table, now and in every continuation. |
| EndpointTables.QueueFollowsEvents | starfish-quic/src/server.rs:909-933 | A closed connection is no longer offered, a failed one in no continuation either; an established one is offered once, behind those waiting. |
| EndpointTables.RoutesReachLive | starfish-quic/src/server.rs:714-732 | In every reachable state a routed datagram reaches a live connection and the stateless-reset lookup is unreachable. |
| EndpointTables.EveryRunExact | starfish-quic/src/server.rs:524-550 | At every point of a run an ID routes to a connection exactly when that connection reports it, if and only if no event of the run names an ID another connection reports. |
| EndpointTables.ClashBreaks | starfish-quic/src/server.rs:524-550 | From any agreed tables, an event that enters an ID another connection reports leaves an ID reported and routed elsewhere. |
| EndpointTables.EmptyIdsClash | starfish-quic/src/server.rs:778-781 | With zero-length IDs, two connections registered from an empty endpoint suffice. |
| EndpointTables.AcceptedAgain | starfish-quic/src/server.rs:543-549 | From an empty endpoint, a run in which one connection is accepted twice. |
| EndpointTables.OfferedAgainExactly | starfish-quic/src/server.rs:543-549 | An accepted connection is offered again along a continuation exactly when some report of it finds the connection live, established and not closed. |
| EndpointRuns.LiveExactly | starfish-quic/src/server.rs:956-968 | A connection is managed exactly until it fails, fails to close or reports that it is closed. |
| EndpointRuns.HandlesCounted | starfish-quic/src/server.rs:836-852 | Handles are numbered in the order connections come. |
| EndpointRuns.ConnectEnters | starfish-quic/src/server.rs:836-852 | A registration routes its initial and local IDs to the new handle, and queues it if established. |
| EndpointRuns.InitialRouteExactly | starfish-quic/src/server.rs:714-732 | The initial ID routes to the connection exactly while it is managed and no other is registered under that ID. |
| EndpointRuns.TokensEntered | starfish-quic/src/server.rs:524-550 | A report or registration enters the last token it gives for each ID. |
| EndpointRuns.TokenStays | starfish-quic/src/server.rs:524-550 | A reset token stays while its connection is managed and reports the ID, and nobody else takes it. |
| EndpointRuns.WithoutKeepsOrder | starfish-quic/src/server.rs:101-108 | Unqueueing a handle leaves the others as they stood. |
| EndpointRuns.AcceptedInOrder | starfish-quic/src/server.rs:92-99 | Handles are accepted in the order they wait. |
| EndpointTables.Endpoint.constructor | starfish-quic/src/server.rs:642-657 | An endpoint starts with empty tables. |
| EndpointTables.Endpoint.QueueEstablishedHandle | starfish-quic/src/server.rs:82-90 | Queues a handle unless it is queued. |
| EndpointTables.Endpoint.UnqueueEstablishedHandle | starfish-quic/src/server.rs:101-108 | Removes a handle from queue and set, keeping the order of the rest. |
| EndpointTables.Endpoint.TryAccept | starfish-quic/src/server.rs:92-99 | Returns the live connection that has waited longest. |
| EndpointTables.Endpoint.RemoveConnection | starfish-quic/src/server.rs:956-968 | Removes the handle, its routes, its tokens and its place in the queue, and nothing else. |
| EndpointTables.Endpoint.ApplyConnectionUpdate | starfish-quic/src/server.rs:524-550 | Replaces the connection's routes and tokens by those it reports and keeps all tables in agreement. |
| EndpointTables.Endpoint.Settle | starfish-quic/src/server.rs:559-603 | Applies a report or drops a failing connection, if it is still managed. |
| EndpointTables.Endpoint.Register | starfish-quic/src/server.rs:836-852 | Gives a new connection a handle never used and enters it in all tables. |
| EndpointTables.Endpoint.CloseConnection | starfish-quic/src/server.rs:909-933 | Unqueues a connection that closed, removes one that failed to. |
| EndpointTables.Endpoint.RouteDatagram | starfish-quic/src/server.rs:714-732 | A routed datagram reaches a live connection that reports its ID or was created under it; the reporter gets it whenever IDs do not clash; a new connection is offered exactly when there is no route, and a reset is never recognised. |
| EndpointTables.Endpoint.HandleConnectionTimeouts | starfish-quic/src/server.rs:614-640 | The timer pass is a run of reports and failures, after which no connection whose timers closed it is left. |

## Left out

- TLS, the AEAD ciphers, header protection's mask and key derivation: external libraries. Keys are identified by their
  installation, Initial keys by the connection ID they are derived from; TLS's verdict is a parameter.
- The remembered transport parameters that 0-RTT also needs are taken to be there with its key.
- Sockets, clocks, pacing and async plumbing: gates, timer outcomes and arrivals are parameters.
- Loss detection, congestion control and flow-control windows: their verdicts are parameters.
- The stream, connection-ID and key-phase managers, and agreement of two peers on a key update.
- Byte-level codecs of the other frames' fields, and the integers inside an ACK frame: control frames count by size
  only.
- DataFrameCodec.DecodeFrames: the fields of frame types other than CRYPTO and STREAM are kept as bytes; how far they
  reach, and which types are refused, is a parameter.
- The probe packet of the MTU search is taken to have exactly the size asked for.
- Epoch wrap-around beyond the test in `bump_epoch`: epochs are unbounded numbers, the set of reactors is fixed, and
  freeing at reactor shutdown is covered only as far as the final drop of the bags.
- Weak memory in the epoch protocol: its steps are sequentially consistent, while the code orders them with Acquire,
  Release and Relaxed. The sleep handshake of the reactor does have store buffers.
- `pin`, `unpin`, `repin` and `bump_epoch` appear as interleaved steps, not additionally as methods.
- Memory layout of deferred allocations: the stored size and alignment are not modelled.
- Errors of `send_pending_frames` in mid-pass: when a frame does not encode, the pass returns and nothing is claimed
  about the frames it had taken.
- SendPath.FrameQueue.SendPendingFrames: coalescing of the built packets into datagrams is modelled only as byte counts
  in `PeerPaths`.
- A Retry's reset of CRYPTO reassembly: TLS itself is not reset, so `CryptoReassembly` follows one numbering.
- CryptoReassembly.CryptoStream.OnCryptoFrame: after TLS has refused bytes, the frontier is claimed again only from the
  next frame that feeds TLS.
- Scheduling times of path MTU probes, and the resets of a path switch: one path is searched from a quiet state.
- PathMtu.LogarithmicallyManyProbes: counts the probes of an exact path, not those repeated after losses of deliverable
  probes.
- 32-bit and 64-bit counters that only grow (packet numbers, ECN counts, stream offsets below the checked limit) are
  unbounded numbers; the per-path byte counters, the probe sizes and the external streak saturate as in the code.
- The futures the reactor runs, its timers' heap order and the I/O-timeout treap.
- Lock-free collections, storage, database and HTTP crates.
