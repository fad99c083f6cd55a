# Verified model of the multipath VPN data plane

This project models, in Dafny, how the VPN carries Ethernet frames over several TLS connections at once: how
frames are numbered, spread over paths, protected by XOR parity, framed and padded, and how the receiver puts
them back in order, recovers lost ones and lets path changes suspend and resume the parity scheme. It also models
how a session survives reconnects. The theorems are about whole runs: every arrival order, every topology
history, every chunking, every loss of a response.

`dafny verify dfyconfig.toml` checks everything.

## Main results

* **Whole-system safety** (`DataPlane.DeliveredIsSent`): one state machine from the sender's dispatch over any
  paths to the receiver's ring. In every run no record is refused, released numbers strictly increase, and
  every released frame is the one written under its number, through congestion, lost streams, mode changes,
  recoveries, evictions and timeouts. `GroupLoss.WhyGroupsGo` lists every reason for which the decoder may let a
  stored group go.
* **Whole-system completeness** (`Delivery.ExactlyOnce`, `Delivery.ExactlyOnceShort`): in the same machine, when
  no frame is dropped or skipped, then once no data is in flight the released frames are exactly the written frames.
* **Completeness with losses** (`LossyDelivery.ReleasedExactly`, `RecoveredExactly`): in the same machine, through any
  suspensions, resumptions and losses, the released frames are the written ones up to the first that neither arrived nor
  is the only loss of a group whose parity came in time; so all come out if and only if every loss is of that kind.
* **End to end** (`EndToEnd.DeliveredExactly`): at the receiver alone, if every group loses at most one frame and then
  its parity arrives, exactly the sent frames are handed on in order, for every arrival order with duplicates.
* **Recovery is sound in every run** (`DecoderSafety.RecoverySound`): whatever is lost, repeated, evicted,
  retired or suspended, a recovered frame is the sender's frame. For arbitrary input the decoder never confirms
  a loss (`DecoderSafety.NothingLost`).
* **Fence protocol** (`FencedDispatch.ControlPrecedesData`, `FenceOnce.ControlsOnce`): over any number of backends that
  come, go, fill up and fall back, data that the receiver may process next finds it at or past the generation of its
  dispatch, and each control is sent at most once on each path.
* **Conservation** (`DispatchBooks.RunBalances`): in every run of the network every frame and parity record given to the
  dispatcher is processed, lost with its stream, queued, or counted as dropped, and is none of these twice.
* **What suspension means** (`FenceMeaning.SuspendedExactly`, `PublishedExactly`, `BypassedExactly`): by path counts and
  frame numbers alone, when the sender is suspended, what it publishes, and that exactly the groups with a frame of the
  last suspended stretch bypass the decoder.
* **Bypass windows** (`FencedBypass.ProtectedNeverBypasses`, `FencedBypass.BypassesExactly`,
  `FenceWindows.GroupsBypassWhole`): in every run of the network without skipped mode changes, data of a group whose
  parity is emitted now or later does not bypass FEC; whatever was skipped, it bypasses if and only if the receiver's
  window spans a resumption and the next suspension that left room for the group.
* **The reorder ring** (`ReorderBuffer.ReorderBuffer.InsertInto` and its siblings) does what `RingSpec` says for every
  number. It is a map exactly as long as no arrival is a wrapped one (`RingSpec.InsertPlain`, `WrappedStored`), and then
  releases increase if and only if no number arrives after the last one was released, with exact accounting
  (`RingSpec.RingInOrder`, `ReorderSpec.InOrderOnce`, `InOrderExactly`). Over every run, wrapped arrivals included,
  `RingOrder.OrderExactly` gives the exact condition for increasing releases. `GapTimer.TimerOnTime` says when the timer
  gives up a gap.
* **A fresh start** (`FreshStart.ResetBuffer`, `ReconfiguredIsNew`): after a reset or a reconfiguration nothing that came
  before can be noticed.
* **Scheduler** (`Scheduler.AlwaysBounded`, `PickActive`, `Fair`, `FairFrames`): in every run accounts stay bounded, and
  the scores that the next pick compares fit 64 bits; the active set is exactly the best paths; equal paths get equal
  service up to one frame; a settled single path does not flap (`SinglePathStable`). `PickMeaning` says in round trips,
  bytes and nanoseconds which paths are active (`ActiveExactly`), which one takes the frame (`PickLeast`,
  `StickyExactly`) and what it is charged.
* **Framing** (`FrameScanner.ReadBack`), **batch writes** (`PortWrite.BatchRefinesEach`), **TLS write size**
  (`BatchWriter.FlushOutbound`, `FillUpstream`) and **session tokens** (`ResumeToken.MemoryNeverRefused`,
  `LossSafeExactly`).

## Where the code differs from what one would expect

* `insert_into` compares sequence numbers with wrapping 32-bit arithmetic. Within the last 65536 numbers an old number
  can be taken for a future one. `RingSpec.DistanceExact` gives the exact condition; such an arrival is always stored
  (`RingSpec.WrappedStored`), the timer can release it after larger numbers (`RingSpec.WrappedReleasedLate`), and every
  release of such a number breaks the order (`RingOrder.WrappedReleaseBreaks`).
* Releasing 4294967295 makes the buffer forget its position, so a later arrival starts over at its own number:
  `ReorderSpec.InOrderExactly` is the exact condition, `ReorderSpec.ReusedInstance` an instance.
* A RESUME applied after a skipped SUSPEND extends the older window, so data of a protected group can bypass the
  decoder. `FenceWindows.BypassExactly` states exactly when, for every selection of controls that the receiver may have
  applied, and `FencedBypass.BypassesExactly` for every run of the network. `SkippedGeneration.SkippingWastes` gives two
  runs.
* Parity records travel without a fence. One that overtakes the SUSPEND before its group is thrown away when the SUSPEND
  arrives, and the frame it protects is lost: `EarlyParity.EarlyParityWasted` gives a run. One that overtakes only the
  RESUME loses nothing; `LossyDelivery.RecoveredExactly` has exactly that as its condition.
* `write_payload_batch` does not refresh `frames_hint`, so the next single write may misjudge the high-water mark
  (`PortWrite.BatchLeavesHint`); the two forms agree exactly under the condition of `PortWrite.BatchRefinesEach`.
* `persist_session_state` skips responses with a smaller epoch, but a lost server session restarts at epoch 1.
  A client that restarts afterwards can be refused; `ResumeToken.LossSafeExactly` gives the exact condition.
* A lone queued frame of more than 15840 bytes never fits an empty write buffer and blocks its queue
  (`BatchWriter.HeadFits`).
* `pick` has a branch for an empty candidate list; `Scheduler.SomeCandidate` shows that it cannot be reached.

## How it is organised

Each stateful component has a value-level specification (a datatype and functions) and, where the source mutates
fields or buffers, a class or method with the source's loops, proved equal to the specification. The theorems over
runs are about the specification.

| file | source | content |
|---|---|---|
| Bytes, Residue, Xor | src/fec.rs, src/protocol.rs | integers on the wire, residues, XOR by words and bytes |
| Parity, FecEncoder | src/fec.rs | parity records, the encoder and its runs |
| DecoderSpec, DecoderSafety, DecoderMeaning, FecDecoder | src/fec.rs | decoder meaning, its theorems, what it forgets and when, the decoder object |
| FecMode, FencedDispatch, FenceOnce, DispatchBooks | src/protocol.rs, src/net.rs | mode controls, the fence protocol, its controls once per path, conservation |
| FenceWindows, FenceMeaning, SkippedGeneration | src/protocol.rs | bypass windows, their meaning by path counts, runs that skip controls |
| ReorderSpec, RingSpec, RingOrder, GapTimer, ReorderBuffer | src/buffer.rs, src/client.rs | reordering as a map, the ring for every number, its order over every run, the timer, the ring object |
| RxActor, EndToEnd, FreshStart | src/rx_actor.rs, src/buffer.rs, src/fec.rs | the receive actor, delivery end to end, resets and reconfiguration |
| FencedBypass, RealFrames, DataPlane, GroupLoss, Delivery | src/net.rs, src/protocol.rs, src/fec.rs, src/rx_actor.rs | network and windows together; the whole data plane, safety and completeness |
| LossLedger, LossBooks, LossyDelivery, EarlyParity | src/net.rs, src/protocol.rs, src/fec.rs, src/rx_actor.rs | completeness with losses, and a run with early parity |
| Scheduler, PickMeaning, AdaptivePort | src/adaptive_multipath.rs | path choice as a function, its meaning in plain units, and as loops |
| BatchQueue, PortWrite | src/net.rs | batch queue, single and batch writes |
| WireLayout | src/protocol.rs, src/fec.rs, src/frame.rs | the wire formats byte by byte |
| Framing, FrameScanner, BatchWriter | src/frame.rs, src/server.rs, src/client.rs | framing, scanner, writer loops |
| ResumeToken | src/server.rs, src/client.rs | resumption tokens |

## Model

| member | source | states |
|---|---|---|
| Bytes.DecodeEncodeBE | src/protocol.rs:21-59 | big-endian fields of every width decode to what was encoded |
| Bytes.EncodeDecodeBE | src/protocol.rs:31-59 | every byte string is the encoding of what it decodes to |
| WireLayout.BigEndian | src/protocol.rs:26-27 | byte i of a w-byte field is the digit of weight 256^(w-1-i), for every number and width |
| WireLayout.ControlLayout | src/protocol.rs:21-29 | a mode control is 2, operation, 0, 0, then eight bytes of generation and four of boundary, each big-endian |
| WireLayout.ControlExactly | src/protocol.rs:31-59 | a payload is accepted iff it has 16 bytes, kind 2, operation 1 or 2, zero flags and two fields that are not zero; the fields are the numbers at bytes 4 and 12 |
| Xor.XorInto | src/fec.rs:81-94 | the word-at-a-time loop XORs the data onto the front of the accumulator byte by byte and leaves the rest |
| Xor.XorCombine | src/fec.rs:97-109 | the word-at-a-time loop writes the byte-wise XOR of parity and accumulator |
| Parity.BuildParse | src/fec.rs:315-351 | parsing a built parity record returns the same start, lengths and XOR body, sealed or not |
| Parity.ParityParses | src/fec.rs:643-697 | the record of K consecutive frames parses to their start, lengths and XOR |
| WireLayout.ParityLayout | src/fec.rs:315-351 | a parity record is 1, four bytes of start, one of group size, four for each member's length, then the XOR body, sealed under its start with 16 bytes of tag |
| WireLayout.ParityAccepted | src/fec.rs:651-658 | a header is accepted iff it has seven bytes, kind 1, this group size, and a start that is a group boundary |
| WireLayout.BodyExactly | src/fec.rs:664-699 | the rest is accepted iff the length table is there, the longest member and its tag fit, and those bytes open; what is held is the table and those bytes |
| Parity.FoldRecovers | src/fec.rs:983-1043 | parity XOR the members present is the missing member, padded with zeros |
| FecEncoder.FecEncoder.constructor | src/fec.rs:229-246 | a new encoder clamps its group size and starts multipath and armed, with an empty group |
| FecEncoder.FecEncoder.SetPhysicalPathCount | src/fec.rs:264-281 | losing the second path abandons the group; regaining it waits for the next group start |
| FecEncoder.FecEncoder.Add | src/fec.rs:282-307 | a frame joins the group; the K-th yields the parity of exactly the collected members; accumulator and length table stay exact |
| FecEncoder.FecEncoder.BuildParity | src/fec.rs:315-351 | the bytes written are the header, the length table and the sealed XOR of the group |
| FecEncoder.FecEncoder.Reset | src/fec.rs:308-314 | only the used part of the accumulator is cleared, and that leaves all of it zero |
| FecEncoder.ParityExactly | src/fec.rs:264-338 | for every path history, frame n yields a parity record iff n ends a group start-aligned at 1 mod K all dispatched on two or more paths, and the record covers exactly that group |
| FecEncoder.ParityOncePerGroup | src/fec.rs:264-338 | each group start yields at most one record, in group order |
| FecMode.EncodeParse | src/protocol.rs:21-59 | a control survives the wire iff it is well formed |
| FecMode.ParseEncode | src/protocol.rs:31-59 | the parser accepts only canonical encodings |
| FecMode.GroupStart | src/protocol.rs:74-82 | the result is the group start at or before the number, within one group of it |
| FecMode.NextGroupStart | src/protocol.rs:84-99 | the result is the first group start at or after the number; 0 only if none fits 32 bits |
| FecMode.PackUnpack | src/protocol.rs:102-111 | packing the window into one 64-bit word loses nothing |
| FecMode.FecRxFenceState.Update | src/protocol.rs:138-208 | a control is applied iff it is well formed and newer; the window changes as the fence meaning says |
| FecMode.FecRxFenceState.BypassData | src/protocol.rs:211-218 | the packed test equals membership in the window |
| FecMode.FecTxModeState.Observe | src/protocol.rs:255-291 | the object follows the sender-mode meaning and stays valid |
| FecMode.ObserveKeepsValid | src/protocol.rs:255-291 | every published control is well formed and in range, generations never fall, the current control carries the current generation |
| DecoderSafety.RecoverySound | src/fec.rs:597-718 | in every run on genuine input every recovered frame equals the sent one, through loss, duplication, reordering, eviction, done-cache overwrite, retirement and mode changes |
| DecoderSafety.NothingLost | src/fec.rs:983-1043 | for arbitrary input the lost counter stays 0 and every counted recovery was emitted once |
| DecoderSafety.StepKeepsInv | src/fec.rs:944-1043 | every step keeps: each stored group lacks a member, and two once its parity is held |
| DecoderSafety.TryRecoverSound | src/fec.rs:983-1043 | a group that lacks one member and holds genuine parity rebuilds exactly that member |
| DecoderMeaning.BypassedData | src/fec.rs:545-568 | a bypassed frame is never stored and recovers nothing; only every 256th such number looks for groups to retire |
| DecoderMeaning.BypassedRetires | src/fec.rs:476-502 | once delivery has passed the boundary, any 256 bypassed frames in a row drop exactly the groups below it |
| DecoderMeaning.ParityRetires | src/fec.rs:859-871 | a parity record with a valid header drops what is due before anything else, and is ignored if its own group is below the boundary |
| DecoderMeaning.ModeDropsExactly | src/fec.rs:513-527 | a control that changes the window drops exactly the groups that now bypass, and those below the passed boundary; the boundary is the highest window start so far |
| DecoderMeaning.DoneExactly | src/fec.rs:944-961 | a finished group is remembered until a group with the same index modulo 256 finishes |
| DecoderMeaning.FinishedData | src/fec.rs:597-610 | a frame of a finished group changes nothing and recovers nothing |
| DecoderMeaning.FinishedParity | src/fec.rs:700-705 | parity of a finished group only retires what is due |
| DecoderMeaning.CompletedIsDone | src/fec.rs:597-637 | after a frame its group is stored iff it is not finished, and each recovery finishes the group and is counted once |
| DecoderMeaning.SingleIgnores | src/fec.rs:545-560 | in static single-path mode data and parity change nothing |
| FecDecoder.RebuildFrame | src/fec.rs:1010-1019 | zero-extending the accumulator and combining it with the parity gives the missing member at its recorded length |
| FecDecoder.OpenEntryIn | src/fec.rs:963-981 | at 512 groups the oldest start is evicted before a new one is stored |
| FecDecoder.ScanMissing | src/fec.rs:996-1009 | the early-exit scan finds the only missing member, or reports none or several |
| FecDecoder.CountMissing | src/fec.rs:1030-1032 | the number added to the lost counter is the number of members a finished group lacks |
| FecDecoder.ReadLens | src/fec.rs:668-679 | the length table is accepted iff every length plus tag fits; the maximum is returned |
| FecDecoder.ReadBody | src/fec.rs:663-699 | the record body is parsed and opened as the wire format says, errors included |
| FecDecoder.FecDecoder.constructor | src/fec.rs:372-392 | a new decoder holds no groups and nothing done |
| FecDecoder.FecDecoder.OnData | src/fec.rs:545-568 | locked entry point equals the decoder meaning of a data frame |
| FecDecoder.FecDecoder.OnDataBatch | src/fec.rs:570-595 | a batch equals folding the single-frame form, outputs and state |
| FecDecoder.FecDecoder.OnDataActor | src/fec.rs:782-837 | actor entry point equals the same meaning when the callback returns the passed position |
| FecDecoder.FecDecoder.OnDataLocked | src/fec.rs:597-637 | one data frame under the lock: ignored when done, absorbed once, recovery attempted |
| FecDecoder.FecDecoder.OnParityStrict | src/fec.rs:643-718 | locked parity entry point equals the decoder meaning, each error case included |
| FecDecoder.FecDecoder.OnParityActor | src/fec.rs:855-937 | actor parity entry point equals the same meaning |
| FecDecoder.FecDecoder.OnControl | src/fec.rs:529-543 | dispatch on the control kind, rejecting unknown and malformed records without change |
| FecDecoder.FecDecoder.OnControlActor | src/fec.rs:839-853 | the same for the actor form |
| FecDecoder.FecDecoder.TryRecover | src/fec.rs:983-1043 | a group with one missing member and parity is finished and its frame emitted; otherwise nothing changes |
| FecDecoder.FecDecoder.DropGroupsInRange | src/fec.rs:457-474 | exactly the groups starting in the window are dropped; without a window none |
| FecDecoder.FecDecoder.MaybeRetireOldGroups | src/fec.rs:476-502 | groups below the passed fence are dropped and the mark only rises |
| FecDecoder.FecDecoder.MaybeRetireOldGroupsActor | src/fec.rs:738-761 | the same in the actor form |
| FecDecoder.FecDecoder.HandleModeControl | src/fec.rs:513-527 | a mode change updates the fence and drops or retires groups as its meaning says |
| FecDecoder.FecDecoder.HandleModeControlActor | src/fec.rs:763-780 | the same in the actor form |
| FecDecoder.FecDecoder.Reset | src/fec.rs:408-425 | groups, done marks, retirement marks and fence are cleared; counters and the static single-path flag stay |
| FecDecoder.FecDecoder.SetStaticSinglePath | src/fec.rs:398-406 | entering static single-path mode clears the decoder once; leaving it clears nothing |
| DecoderMeaning.SingleExactly | src/fec.rs:398-406 | entering static single-path mode leaves a new decoder with the old counters, entering it again changes nothing, leaving it lifts the flag alone |
| FreshStart.ResetDecoder | src/fec.rs:408-425 | a reset decoder is a new one of its group size, but for the counters and the static flag |
| FreshStart.ResetSound | src/fec.rs:408-425 | so recovery is sound after a reset for every new sender, whatever the decoder saw before |
| FencedDispatch.SendDataPayloadToAny | src/net.rs:1646-1685 | the fallback loop over the backend array equals its value-level form |
| FencedDispatch.TrySendFencedExactly | src/net.rs:1610-1632 | a backend takes a frame iff it has room for it and, when its fence is behind, for the control before it |
| FencedDispatch.SendExactly | src/net.rs:1646-1685 | a frame lands on exactly one backend or none: the preferred one if it has room, otherwise the first healthy one with room, dropped exactly when there is none |
| FenceOnce.FenceRecorded | src/net.rs:1610-1632 | a frame that is taken leaves the path's fence at the sender's generation, one slot per record used, and the next frame needs no control |
| FenceOnce.ControlsOnce | src/net.rs:1610-1632 | in every run the controls ever queued on one path have strictly increasing generations, none above its fence: each is sent there at most once |
| DispatchBooks.WriteConserves | src/net.rs:1822-1888 | a frame is numbered iff it is not empty, a path is below its high-water mark and numbers are left; it and the parity it completes over two or more paths are queued once or counted as dropped |
| DispatchBooks.RunBalances | src/net.rs:1822-1888 | over every run of the network, frames and parity written are those processed, lost with their stream, still queued, or counted as dropped |
| FencedDispatch.WriteKeepsSafe | src/net.rs:1822-1888 | dispatching a frame with its controls and parity keeps every stream fenced |
| FencedDispatch.StepKeepsSafe | src/net.rs:1610-1685 | register, unregister, congestion, dispatch, receipt and loss of a stream all keep every stream fenced |
| FencedDispatch.ControlPrecedesData | src/net.rs:1848-1868 | in every run any data record at a stream head has a dispatch generation at most the receiver's |
| FenceWindows.PhaseConsistent | src/protocol.rs:255-291 | at every point of every run sender mode, receiver window and the last suspend and resume agree |
| FenceWindows.GenerationStep | src/protocol.rs:255-291 | each published control raises the generation by exactly one |
| FenceMeaning.ApplyExactly | src/protocol.rs:176-217 | an old, zero or unknown control changes nothing; a suspension makes exactly the numbers from its boundary on bypass; a resumption ends the open window at its boundary |
| FenceMeaning.SuspendedExactly | src/protocol.rs:255-291 | by path counts alone: the sender is suspended iff some dispatch lost its second path and none since could resume |
| FenceMeaning.PublishedExactly | src/protocol.rs:255-291 | a dispatch publishes a suspension from its own group start iff it loses the second path while not suspended, and a resumption from the next group start iff it has two paths again while suspended and such a start is left |
| FenceMeaning.BypassedExactly | src/protocol.rs:225-253 | a receiver that has applied every control lets a frame bypass iff its group contains a frame of the last suspended stretch |
| FenceWindows.GroupsBypassWhole | src/protocol.rs:176-217 | under any subsequence, order or repetition of controls a window never splits a group |
| FenceWindows.EmittedNeverBypasses | src/protocol.rs:176-217 | when no control up to the frame's generation was skipped, a frame of a group whose parity was emitted does not bypass |
| FenceWindows.SkippingExactly | src/protocol.rs:190-204 | the case of two given controls, whatever the generation of the group: a receiver that jumps from that suspension to that resumption bypasses a protected group iff a skipped resume and suspend pair between them leaves room for a whole group |
| FenceWindows.BypassExactly | src/protocol.rs:176-217 | for every selection, order and repetition of controls applied, a group whose parity is emitted and whose generation has been applied bypasses iff the window spans a resumption and the next suspension with the group between their boundaries |
| FenceWindows.WasteExactly | src/protocol.rs:190-204 | for every such receiver some emitted parity is wasted that way iff its window spans such a pair with room for a whole group |
| SkippedGeneration.SkippingWastes | src/net.rs:1610-1685 | runs of the network, with paths leaving and joining, in which the receiver applies generations 1 and 4, or 1, 2 and 4, and the next frame in line bypasses although the parity of its group was sent |
| FencedBypass.StepFaithful | src/net.rs:1822-1888 | at every step every queued record is what was dispatched under its number, a published control or an emitted parity record, and a receiver that skipped nothing stands at a prefix of the controls |
| FencedBypass.ProtectedNeverBypasses | src/protocol.rs:176-217 | in every run of the network in which the receiver skipped no generation, data it may process next whose group's parity is emitted now or later does not bypass |
| FencedBypass.BypassesExactly | src/protocol.rs:176-217 | in every run of the network, whatever was skipped, such data bypasses iff the window spans a resumption and the next suspension that left room for its group |
| ReorderSpec.DrainSpec | src/buffer.rs:332-347 | a flush releases exactly the longest consecutive run from the position |
| ReorderSpec.ReadyExactly | src/buffer.rs:332-347 | exactly the released frames that are not empty are handed on, each at its place |
| ReorderSpec.InOrderOnce | src/buffer.rs:332-414 | in every run from any empty buffer, fresh, reset or positioned, that does not reuse the sequence space, released numbers strictly increase, each once, and the position advances from where it was learned by released plus skipped |
| ReorderSpec.InOrderExactly | src/buffer.rs:332-414 | released numbers increase iff no number arrives after 4294967295 was released |
| ReorderSpec.ReusedInstance | src/buffer.rs:332-347 | at the last position the arrivals 4294967295 and 5 are both released |
| ReorderSpec.LearningStep | src/buffer.rs:207-216 | the first arrival at any buffer without a position, new or reset, is released and sets the position behind it |
| ReorderSpec.ConsecutiveInserts | src/buffer.rs:259-291 | one-by-one insertion of a consecutive batch into an empty buffer releases exactly that batch |
| RingSpec.DistanceExact | src/buffer.rs:216-226 | the wrapping distance test equals the plain one iff the arrival is not a wrapped one |
| RingSpec.InsertPlain | src/buffer.rs:207-247 | for every arrival that is not a wrapped one the ring does exactly what the map does |
| RingSpec.BypassPlain | src/client.rs:2297-2315 | the owned fast path, taken or not, releases what one-by-one insertion into the map would |
| RingSpec.TimeoutPlain | src/buffer.rs:395-414 | the bitmap scan of the timer is the jump to the smallest pending number |
| RingSpec.RingInOrder | src/buffer.rs:207-414 | from any empty ring, over every run without wrapped arrivals, releases increase iff the space is not reused, with exact accounting |
| RingSpec.WrappedStored | src/buffer.rs:216-247 | a wrapped arrival finds its slot free and is stored, so the ring differs from the map exactly then |
| RingSpec.WrappedReleasedLate | src/buffer.rs:395-414 | with nothing else pending the timer then releases the wrapped number after larger ones |
| RingOrder.OrderExactly | src/buffer.rs:207-414 | over every run from any empty ring, wrapped arrivals included, releases increase iff the timer is never due with everything pending behind the position and no release comes due after the space has run out |
| RingOrder.WrappedReleaseBreaks | src/buffer.rs:207-414 | every run that releases a number which was a wrapped arrival is out of order |
| ReorderBuffer.NextWindow | src/buffer.rs:293-303 | the new window is the smallest power of two that covers the distance, at most 65536 |
| ReorderBuffer.Regrow | src/buffer.rs:304-330 | growth keeps exactly the pending frames, each in the slot of its number |
| ReorderBuffer.ReorderBuffer.InsertInto | src/buffer.rs:207-247 | for every number, wrapped ones included, state and outputs equal those of the specified ring |
| ReorderBuffer.ReorderBuffer.GrowWindow | src/buffer.rs:293-330 | growth succeeds iff the window is not maximal and the required size is at most 65536; content never changes |
| ReorderBuffer.ReorderBuffer.FlushInto | src/buffer.rs:332-347 | releases the consecutive run and refreshes the gap mark |
| ReorderBuffer.ReorderBuffer.HasGap | src/buffer.rs:349-353 | the bitmap tells exactly whether something is pending behind a gap |
| ReorderBuffer.ReorderBuffer.RefreshGap | src/buffer.rs:355-364 | the gap timestamp is set once, counted once, and cleared exactly when nothing waits |
| ReorderBuffer.ReorderBuffer.FlushTimeoutInto | src/buffer.rs:395-414 | after the timeout the bitmap scan equals that of the specified ring, wrapped numbers included, and skipped numbers are counted |
| ReorderBuffer.ReorderBuffer.Reset | src/buffer.rs:366-374 | everything but the statistics is cleared |
| FreshStart.ResetBuffer | src/buffer.rs:366-374 | after a reset every run of arrivals and timeouts releases exactly what a new buffer releases |
| FreshStart.ResetRing | src/buffer.rs:366-374 | the same for the ring, which keeps its size |
| GapTimer.TimerReleases | src/buffer.rs:395-414 | until a gap is 50 ms old the timer changes nothing; from then on it releases the run that starts at the smallest pending number, keeps the rest, and counts one flush and the numbers skipped |
| GapTimer.GapWaits | src/buffer.rs:240-246 | a gap behind one frame opens when the frame arrives, and the frame is released by the first timer call 50 ms later or more, not before |
| GapTimer.RingDates | src/buffer.rs:349-364 | for every number, wrapped ones included, a stored arrival or a release leaves a date iff something is pending behind a free slot at the position; a dated gap keeps its date |
| GapTimer.TimerOnTime | src/buffer.rs:349-414 | in every run the timer releases something iff 50 ms have passed since the operation that opened the gap the buffer still waits behind |
| GapTimer.CountersExact | src/buffer.rs:355-414 | in every run the counters are the number of gaps that opened and of timer calls that released something, up to 2^64 - 1 |
| ReorderBuffer.ReorderBuffer.TryDirectBatch | src/buffer.rs:259-276 | true iff the batch is consecutive and nothing is pending, and then equals one-by-one insertion; false changes nothing |
| ReorderBuffer.ReorderBuffer.TryAdvanceSequences | src/buffer.rs:278-291 | the same for sequence numbers alone |
| ReorderBuffer.FlushOwnedFrames | src/client.rs:2297-2315 | for every batch the owned fast path and the slow path leave ring and output as specified |
| RxActor.DeDuplicator.IsDuplicate | src/buffer.rs:143-149 | a reported duplicate was recorded since the last reset |
| RxActor.DuplicateExactly | src/buffer.rs:143-149 | a number is reported iff it came before and none since is congruent to it modulo 4096 |
| RxActor.RxSessionActor.ProcessItem | src/rx_actor.rs:339-384 | every record through decoder, duplicate filter and ring equals its meaning |
| RxActor.HandedExactly | src/rx_actor.rs:339-384 | a data record hands on itself unless its slot of 4096 holds its number, and the frame it rebuilds under the low 32 bits of its number |
| RxActor.RefusedRecord | src/rx_actor.rs:339-384 | a record is refused iff it has no number and there is no decoder, or it is no control, or a mode control or parity record that is not accepted |
| RxActor.ProcessPlain | src/rx_actor.rs:339-384 | a record that hands over no wrapped number is processed as if the ring were a map |
| RxActor.RxSessionActor.InsertPair | src/rx_actor.rs:386-408 | a frame and its recovered partner enter in sequence order, as `FirstPairHeld` needs |
| RxActor.PairAscends | src/rx_actor.rs:386-408 | the pair is the frame and its partner, lower number first |
| RxActor.FirstPairHeld | src/rx_actor.rs:386-408 | at a session without a position, a data record that rebuilds its partner loses neither: both frames are released or pending |
| RxActor.Partner | src/fec.rs:597-637 | what a data frame rebuilds is another member of its own group |
| RxActor.RxSessionActor.ProcessBatch | src/rx_actor.rs:186-227 | a batch equals folding its records up to the first error; a stale generation changes nothing |
| RxActor.BatchStops | src/rx_actor.rs:204-209 | a batch is processed up to and including the first record that is refused, and reports its error; without one, to the end |
| RxActor.RxSessionActor.Reconfigure | src/rx_actor.rs:139-159 | a new generation; the session becomes `Reconfigured`, which `ReconfiguredIsNew` shows to be a new one |
| FreshStart.ReconfiguredIsNew | src/rx_actor.rs:139-159 | whatever a session received before, after reconfiguration it releases and reports, batch by batch and timeout by timeout, exactly what a new session does |
| EndToEnd.DeliveredExactly | src/rx_actor.rs:339-408 | frames made ready are exactly the sent payloads in order, for every arrival order with duplicates in which each group loses at most one frame and then has its parity |
| EndToEnd.SmallSessionDelivered | src/rx_actor.rs:339-408 | the same for all sessions of at most 511 groups and fewer than 65536 frames, with no condition on the run but that the first data frame is frame 1, or frame 2 of a pair whose parity came before |
| RealFrames.InsertAllReal | src/buffer.rs:207-247 | inserting sent frames releases only sent frames, in increasing order, from the old position up to the new one |
| RealFrames.TimeoutReal | src/buffer.rs:395-414 | the same for the gap timer |
| RealFrames.NeverWrapped | src/buffer.rs:216-226 | in a session that ends 65536 numbers before the space does no frame is a wrapped arrival |
| DataPlane.ProcessReal | src/rx_actor.rs:339-408 | any record of the run is accepted without error, moves the decoder's fence as the protocol says, and releases only sent frames in order from the position on |
| DataPlane.DeliveredIsSent | src/rx_actor.rs:339-408 | in every run of the whole data plane, with the ring as it is, released numbers strictly increase, every released frame is the one written under its number, no record is refused |
| DataPlane.RetirementHarmless | src/fec.rs:738-761 | in every run a group given up by retirement lies wholly behind the reorder position |
| GroupLoss.ModeLoss | src/fec.rs:763-780 | a group that a mode control makes disappear lies in the window it opens or, by the mark it has just raised, wholly behind the position |
| GroupLoss.WhyGroupsGo | src/fec.rs:763-981 | in every run a stored group that the next record makes disappear is finished, or was the oldest of 512, or lies in the window just opened, or lies wholly behind the reorder position |
| Delivery.StepInFlight | src/net.rs:1646-1685 | a step that refuses no numbered frame and loses no stream leaves every dispatched frame in some stream or hands it to the receiver |
| Delivery.ExactlyOnce | src/rx_actor.rs:339-408 | in every run without dropped frames, expired gaps and far-ahead arrivals, whose first data record is frame 1 or rebuilds it, parity dropped or not, once no data is in flight the released frames are exactly the written ones, in order, once each |
| Delivery.ExactlyOnceShort | src/rx_actor.rs:339-408 | the same for sessions below 65536 frames, with conditions on the network, the timer and the first data record alone |
| LossLedger.ParityLedger | src/fec.rs:855-937 | through retirement and windows, a parity record keeps the accounts: every group that matters is passed on or stored with all that arrived |
| LossLedger.ModeLedger | src/fec.rs:763-780 | so does a mode control whose new window covers only groups that are passed on, or parity that nothing has arrived for |
| LossBooks.EarlyDropped | src/fec.rs:457-474 | a receiver one generation before a protected group has that group in its window, so parity that overtook the suspension is thrown away |
| LossBooks.RebuiltLoss | src/fec.rs:983-1043 | a rebuilt frame was the only loss of a group whose parity came in time |
| LossyDelivery.SeenExactly | src/rx_actor.rs:339-408 | in every run without a skipped generation, eviction, expired gap or far-ahead frame, a frame has been released or is pending iff it arrived or is the only loss of a group whose parity came in time |
| LossyDelivery.ReleasedExactly | src/rx_actor.rs:339-408 | in every such run the released frames are the written ones up to the first that is neither |
| LossyDelivery.RecoveredExactly | src/rx_actor.rs:339-408 | in every such run the released frames are exactly the written ones iff every frame that did not arrive is the only loss of a group whose parity came in time, that is with at most one mode change outstanding before the group |
| EarlyParity.EarlyParityWasted | src/net.rs:1848-1888 | a run in which parity overtakes a suspension, is thrown away, and the only loss of its group does not come out |
| Scheduler.ServiceBounds | src/adaptive_multipath.rs:42-48 | no charge exceeds 737869762948 ns, that value is reached, and no frame is free |
| Scheduler.CandidatesExactly | src/adaptive_multipath.rs:380-424 | the candidate list is sorted and holds exactly the healthy paths within the round-trip slack |
| Scheduler.SomeCandidate | src/adaptive_multipath.rs:420-423 | once a healthy path is known, the candidate list is not empty |
| Scheduler.BestLeast | src/adaptive_multipath.rs:502-510 | the chosen path has the least score, then the least round trip |
| Scheduler.PickBounded | src/adaptive_multipath.rs:452-518 | every pick keeps every virtual finish between 0 and two service times plus the carry bonus |
| Scheduler.PickCompares | src/adaptive_multipath.rs:452-518 | a pick over several paths chooses and charges in the state with the shifted accounts, which is within bounds |
| Scheduler.AlwaysBounded | src/adaptive_multipath.rs:452-518 | in every run with paths joining, leaving and changing, accounts stay bounded, and in the state in which the next pick compares, every score, every sum behind it and every charge fits i64 |
| Scheduler.PickActive | src/adaptive_multipath.rs:452-470 | exactly the target number of paths is active, all eligible, the chosen one among them, and several active ones are the best ranked |
| Scheduler.SinglePathStable | src/adaptive_multipath.rs:427-450 | while one path suffices a repeated pick keeps the path and changes no state |
| Scheduler.Fair | src/adaptive_multipath.rs:452-519 | two paths that start level and stay active with equal backlogs and no carry are charged equally up to one maximal charge, however long the run |
| Scheduler.FairFrames | src/adaptive_multipath.rs:452-519 | with frames of one size they take equally many frames up to one |
| AdaptivePort.AdaptivePortState.Pick | src/adaptive_multipath.rs:322-520 | the passes over the backend array compute exactly the specified choice, path states, pressure and active count |
| AdaptivePort.ListCandidates | src/adaptive_multipath.rs:380-424 | one pass refreshes estimates, clears the ineligible and lists the others in order |
| AdaptivePort.AdmitTop | src/adaptive_multipath.rs:452-470 | ranks below the target become active at the epoch, all others inactive |
| AdaptivePort.ShiftTop | src/adaptive_multipath.rs:472-488 | the least account is taken off each active account exactly once |
| AdaptivePort.FindBest | src/adaptive_multipath.rs:490-510 | the scan returns the best of the active paths |
| PickMeaning.TargetLevels | src/adaptive_multipath.rs:297-312 | a second, third and fourth path at 24, 96 and 256 KiB of pressure or 40, 100 and 180 MB/s of demand, as far as there are eligible ones |
| PickMeaning.ActiveExactly | src/adaptive_multipath.rs:335-470 | pressure is the frame and everything queued; after a pick exactly that many paths are active, all healthy and within 5 ms or a quarter of the least round trip; several are those with the least round trips |
| PickMeaning.StickyExactly | src/adaptive_multipath.rs:427-440 | while one path suffices the current one is kept iff it is within reach and its one-way trip exceeds the least by at most a sixteenth of its round trip, between 0.5 and 5 ms |
| PickMeaning.LoneExactly | src/adaptive_multipath.rs:353-362 | with one path enough or none with room, the chosen path alone is active and every account is 0; with none, the first path is chosen |
| PickMeaning.ComparedExactly | src/adaptive_multipath.rs:452-488 | accounts compared have least 0, old differences are kept, newcomers start at the least, all others are cleared |
| PickMeaning.PickLeast | src/adaptive_multipath.rs:490-519 | the frame goes where account plus 40 ns for each queued byte minus 150 us for a carry is least, then the shorter round trip, and 40 ns for each of its bytes are charged |
| PickMeaning.ShortestQueue | src/adaptive_multipath.rs:490-510 | with level accounts and no carry no path with fewer queued bytes is passed over |
| PickMeaning.PickPublishes | src/adaptive_multipath.rs:365-406 | every path's estimate is half its round trip plus the time for queue and frame at its rate, or at the best known rate if it has none, less 150 us for a carry |
| BatchQueue.PushAppends | src/net.rs:1261-1281 | a push appends exactly one frame at the end and keeps batches within frame and byte limits |
| BatchQueue.BatchAppends | src/net.rs:1283-1295 | a batch push takes the longest prefix that fits, in order |
| BatchQueue.PopTakesFront | src/net.rs:1297-1315 | a pop returns the oldest batch, and only one whose payloads and overhead fit the budget |
| BatchQueue.RunConserves | src/net.rs:1251-1315 | over every run popped frames followed by queued ones are the initial ones followed by the accepted ones |
| BatchQueue.RunPacked | src/net.rs:1261-1281 | in every run on a new queue, a batch of several frames stays within its frame limit and 8192 bytes, none was opened while the one before it had room, and the hint is the number of queued frames |
| BatchQueue.TakenExactly | src/net.rs:1251-1315 | a frame is taken iff fewer than the capacity are queued; the oldest batch is handed over iff its bytes and 32 for each frame fit the budget |
| BatchQueue.OwnedBatchQueue.TryPush | src/net.rs:1251-1259 | the object follows the queue meaning and refreshes the hint |
| BatchQueue.OwnedBatchQueue.TryPushBatch | src/net.rs:1283-1295 | the loop pushes the prefix and returns the rest |
| BatchQueue.OwnedBatchQueue.TryPopFitting | src/net.rs:1297-1315 | the object follows the queue meaning |
| PortWrite.BatchRefinesEach | src/net.rs:1781-1820 | a batch write leaves the same queue, numbers, drops and byte counts as single writes iff nothing is to be written, the space is exhausted, or hint and queue are on the same side of the high-water mark |
| PortWrite.BatchExactly | src/net.rs:1796-1815 | the first payloads that fit are queued under consecutive numbers, all others counted as dropped, empty ones ignored |
| PortWrite.EachExactly | src/net.rs:1822-1905 | the same for single writes when the hint is current |
| PortWrite.WriteExactly | src/net.rs:1822-1905 | a single write with any hint: when the frame takes a number, when it is queued, when it is dropped with its number, and what is counted |
| PortWrite.BatchLeavesHint | src/net.rs:1796-1820 | after a batch write the hint is current iff nothing was queued |
| PortWrite.SingleBackendPort.WritePayload | src/net.rs:1822-1870 | one write on the port object equals its meaning |
| PortWrite.SingleBackendPort.WritePayloadBatch | src/net.rs:1781-1820 | the locked loop equals its meaning |
| PortWrite.SingleBackendPort.NextSeq | src/net.rs:1890-1905 | numbers are dense and stop at 4294967295 |
| Framing.ParsePrinted | src/frame.rs:17-67 | a printed frame parses back whatever its padding and whatever follows |
| Framing.ParseMore | src/frame.rs:214-252 | more bytes never change a complete frame or an error |
| WireLayout.HeaderLayout | src/frame.rs:40-43 | a header is four bytes of length, two of padding length and four of number, big-endian |
| WireLayout.ScannedExactly | src/frame.rs:214-252 | below ten bytes it waits, a length above the limit is refused, then it waits for payload and padding, then hands over payload and number and drops the padding |
| Framing.ParsePrintedList | src/frame.rs:17-67 | a printed list parses to its wire payloads and numbers with nothing left |
| Framing.OpenSealed | src/frame.rs:48-60 | what was sealed for a data frame opens to that frame; control frames stay plain |
| FrameScanner.FrameScanner.TakeBufferedFrame | src/frame.rs:214-252 | returns the next frame, nothing, or the length error exactly as the stream parser does |
| FrameScanner.FrameScanner.CompactConsumed | src/frame.rs:255-267 | compaction in either mode keeps the unread bytes |
| FrameScanner.FrameScanner.ReadFrame | src/frame.rs:274-299 | returns the next frame of the whole stream however it is cut; without one keeps every byte |
| FrameScanner.ReadAll | src/client.rs:1959-2050 | the frames read followed by those still to come are the frames of the stream, so reading goes on after a pause; a length error ends it after all frames before it |
| FrameScanner.ReadBack | src/frame.rs:214-299 | every list within limits, any pieces, pauses and failures in between, both compaction modes: the printed payloads and numbers come back |
| BatchWriter.PadLengthBounds | src/crypto.rs:185-210 | per-frame padding fits the header, respects the record limit, and is off at limit one |
| BatchWriter.PadLengthExactly | src/crypto.rs:185-210 | padding fills a record to the next bucket, or to the limit if that is nearer; from 4096 bytes on it is 1 to 100 bytes without a limit and none with one |
| BatchWriter.TailPadBounds | src/frame.rs:104-126 | tail padding is at most a tenth of the batch, at most 512 bytes, and stays within the record size |
| BatchWriter.TailPadExactly | src/frame.rs:104-126 | the batch and 32 bytes are filled up to a whole number of segments if that takes at most a tenth of the batch, at most 512 bytes, and fits the record and the field; otherwise nothing is added |
| BatchWriter.RepaddedPrint | src/frame.rs:132-162 | tail padding only lengthens the padding of the last frame |
| BatchWriter.PadStreamBatchTail | src/frame.rs:132-162 | exactly the specified number of bytes is added, and only the cover bytes and the last pad field change |
| BatchWriter.AppendPaddedFrame | src/frame.rs:17-67 | appends exactly the printed frame with the chosen padding |
| BatchWriter.FlushOutbound | src/server.rs:2091-2127 | at most 16384 bytes after tags and padding; they parse to exactly the frames taken off the queue front; it stops at 12288 bytes or 2048 frames, which it reports, or when the next batch does not fit, and every batch was taken below that limit |
| BatchWriter.FillUpstream | src/client.rs:2097-2129 | the same for the client loop |
| BatchWriter.HeadFits | src/net.rs:1297-1310 | with an empty buffer the head batch is taken iff it is not a lone frame over 15840 bytes |
| ResumeToken.SessionEpochState.AcceptSessionResumeToken | src/server.rs:2224-2235 | current and pending tokens are accepted, and a presented pending one is promoted |
| ResumeToken.SessionEpochState.EnsurePendingResumeToken | src/server.rs:2237-2242 | a pending token is drawn only if there is none; failure changes nothing |
| ResumeToken.SessionEpochState.Rejoin | src/server.rs:2480-2518 | a handshake on an existing session refuses, rotates or promotes as specified, also when rotating the keys or drawing a token fails |
| ResumeToken.RefusedExactly | src/server.rs:2224-2235 | a new instance is refused iff its 64-character token is neither the current nor the pending one, and then changes nothing; instance and epoch move iff it is let in and the keys rotate |
| ResumeToken.PromotedExactly | src/server.rs:2480-2518 | exactly a presented pending token becomes current; a response names the newest token, and is missing exactly on refusal, failed rotation or failed drawing |
| ResumeToken.MemoryNeverRefused | src/client.rs:1661-1661 | in one process lifetime a client that stored a token always holds one of the server's two and is never refused, whatever responses are lost and sessions forgotten |
| ResumeToken.PendingRetiresCurrent | src/server.rs:2224-2235 | once pending is presented the replaced token is refused to every other instance while the session lives |
| ResumeToken.LossSafeExactly | src/client.rs:785-800 | after a lost session a client restarting from disk is safe in every future iff the epoch on disk is at most 2 |

## Left out

- EndToEnd.DeliveredExactly: the run is required to be smooth (no timeout, no eviction of an unfinished group, no mode window, no arrival 65536 ahead, and the first record that brings a number brings frame 1); `SmallSessionDelivered` shows sessions in which all of that follows, and `LossyDelivery.RecoveredExactly` admits mode windows.
- DataPlane.DeliveredIsSent: sessions end 65536 numbers before the sequence space does; `RingSpec.WrappedReleasedLate` shows what can happen later.
- LossyDelivery.RecoveredExactly: the receiver skips no generation, evicts no group, finds no gap expired, and its first data record is frame 1 or rebuilds it; `FencedBypass.BypassesExactly`, `GroupLoss.WhyGroupsGo` and `DataPlane.DeliveredIsSent` speak about the other runs.
- FenceWindows.EmittedNeverBypasses: speaks of frames dispatched one after another under the port lock, numbered from 1.
- PortWrite.SingleBackendPort.WritePayload: scheduler accounts and demand statistics are not part of the compared state; the batch form does not update them.
- ResumeToken.MemoryNeverRefused: handshakes are processed one at a time, drawn tokens never repeat, and a handshake closed by the limit of 16 connections counts as one whose response is lost.
- TLS, sockets, polling, corking, TAP devices, thread wake-ups and park loops: input and output of the surrounding system.
- AEAD ciphers, hashing and random numbers: a cipher is any pair of functions with `open` inverting `seal` and a 16-byte tag; padding bytes, salts and tokens are parameters.
- The AVX2 and NEON variants of the XOR loops; the 64-bit form is modelled.
- Clocks: the time of an operation is a parameter, and the demand rate that `pick` measures from the clock is one too.
- Machine limits of counters that only feed statistics; sequence numbers, generations, epochs, lengths and service times keep their 16, 32 or 64-bit limits.
- Atomics and locks: each operation is one step; races between dispatch, reset and reconnection are not modelled.
- The dispatch thread, the legacy one-frame channel and the parity cursor: any choice of parity backend is allowed instead.
- The learning switch, its MAC table and flood budgets, address pools, rate negotiation and the rest of the handshake: mostly table updates without a property across operations.
- Dashboard, configuration, hooks, policy routing, SOCKS5, installer, frame pools.
