# Oxidali verification

A Dafny model of the parts of the oxidali DALI controller where state, timing and failure meet, with proofs
about every input and every run.

* **The slice store** keeps settings in two flash banks per slice. `SliceLayout`, `BankFormat` and `Crc32` are its
  formats. `SlotMachine` is one slot as a machine whose steps are single bytes programmed or erased, calls, loads and
  power cuts. `CrashConsistency` and `UnprovedWrite` prove what a load finds after any run. `SliceCalls` and
  `StoreRuns` tie calls and sequences of calls to runs of that machine, `SliceStore` is the object over raw flash, and
  `ServedRace` and `ServedRuns` add loads on other threads.
* **The transceiver** (`HalfBits`, `Fsm`, `BitbangPhy`) encodes frames, drives and samples the line tick by tick;
  `Manchester`, `PhaseSearch` and `RxDecode` decode what was sampled. `Reception`, `Silence`, `FrameDecode`, `RoundTrip`,
  `BusTransfer` and `Overlap` prove that values survive the way from encoder to decoder, on one clock and on two.
* **The interrupt core** (`Isr`, `IsrObject`) arbitrates requests, cancellation, backward windows, answers and captures.
  `IsrBase` holds its runs and base invariant; `IsrLedger`, `IsrOrder`, `IsrReports`, `IsrFates`, `IsrEvents`,
  `IsrWindows`, `IsrSession`, `IsrCancel`, `IsrCancelled`, `IsrOrphan`, `IsrAnswers`, `IsrTiming`, `IsrLine`, `IsrLatest`,
  `IsrSniffer`, `IsrBusy` and `IsrRecovery` prove its promises about all runs, and `IsrInvariant` gathers what the object
  keeps after every call. `Ring`, `CommandCell`,
  `AnswerTable`, `AnswerTableCell` and `Seqlock` are the lock-free structures it shares with tasks.
* **The message plumbing**: `ConfirmationBridge` and `ReplyIsolation` (replies to waiting requests), `RouteMask` and
  `BusRouting` (commands to declared inboxes).

Objects of the source are classes whose methods are proved equal to functions on values; the properties of whole runs
are lemmas about those functions. A few records carry fields that decide nothing and only remember what happened
(`Ledger`, `Windows`, tags of requests, traffic counts, the levels on the wire, lists of what was pushed), so that a
property of a run can be said about its last state.

Where a promise fails, the model keeps the code's behaviour:

* A write that no load preceded after a torn header destroys the committed payload (`UnprovedWrite.UnprovedWriteLoses`),
  and one after a header write that was complete but reported failed erases the newer payload although a load preceded
  it (`FailedWriteIsErased`). `BeginSparesIff` is the exact condition.
* A load in flight over an erase can move `served` to the bank under erasure. It does not in ordinary runs from a slot
  whose newest header is the served bank's (`ServedRuns.ProvedBankIsSafe`). Two things are kept out of them: a header
  write that fails once the header can be read, because `ServedRace.FailedButCompleteIsReached` with
  `OvertakenLoadServesErased` is a run that gets `served` onto an erased bank that way, and a newer header in the other
  bank to start with (`NewerHeaderMisleads`). `ServedRace.Quiet` is the condition for runs beyond that (`ServedIsSafe`),
  and `LateLoadServesErased` and `ErasingServed` say what happens outside it.
* A second acknowledged cancel forgets that the frame on the wire was cancelled; if that frame ends in a collision break,
  requests queued since are dropped (`IsrOrphan.SecondCancelLosesTheQueue`). The condition in `LaterRequestsSurviveIff`
  also covers one cancel of another exchange while a frame is on the wire: it takes that frame's request away, too. A
  cancelled exchange is silent only without such a second cancel (`IsrCancelled.CancelledIsSilent`, `SecondCancelSpeaks`).
* An answer armed in the last tick of its slot drives its first half-bit 101 ticks, 10 504 us, after the last sample that
  saw the query dominant, and 100 ticks, 10 400 us, after the first that saw it recessive; the edge lies between the two
  samples. `IsrTiming.SlotIsInsideTheBounds` says that this is the only case, and `IsrLatest.LatestArmIsReached` is a run
  that reaches it.

`dafny verify dfyconfig.toml` checks everything.

## Model

| member | source | states |
|---|---|---|
| SliceLayout.EveryByteHasOneOwner | crates/dali2rust-bsp/src/slice_layout.rs:52-79 | every byte of the reserved area belongs to exactly one slot, the one its address computes to |
| SliceLayout.DistinctKeysAreDisjoint | crates/dali2rust-bsp/src/slice_layout.rs:98-181 | no byte belongs to the slots of two different keys |
| SliceLayout.IndexOfKeyAt | crates/dali2rust-bsp/src/slice_layout.rs:98-181 | slot indices and keys correspond one to one over the whole range |
| SliceLayout.GeometryByIndex | crates/dali2rust-bsp/src/slice_layout.rs:52-79 | a key has a slot exactly when it has an index, and offset and bank size are those of that index |
| BankFormat.HeaderRoundTrip | crates/dali2rust-bsp/src/slice_store_core.rs:33-51 | decoding an encoded header gives it back, whatever bytes follow it |
| BankFormat.TornHeader | crates/dali2rust-bsp/src/slice_store_core.rs:33-51 | a header cut after any byte is no candidate before its length is complete, then carries the new sequence number and payload length, and passes exactly when no byte of it is missing after all |
| BankFormat.TornTail | crates/dali2rust-bsp/src/slice_store_core.rs:33-51 | a header cut within its checksum already decodes to the new sequence number and length |
| BankFormat.ErasedFirstByte | crates/dali2rust-bsp/src/slice_store_core.rs:153-166 | a bank that has lost its first byte to an erase is no candidate |
| BankFormat.ProgramErased | crates/dali2rust-bsp/src/slice_store_core.rs:18-25 | programming an erased range stores exactly the data; programming can only clear bits |
| Crc32.ChecksumChains | crates/dali2rust-bsp/src/slice_store_core.rs:18-25 | the CRC-32 of a payload can be computed chunk by chunk: the one law asked of a checksum |
| CrashConsistency.CrashConsistent | crates/dali2rust-bsp/src/slice_store_core.rs:153-331 | after any run over any number of boots, with power cut after any byte of any erase, append, header write or stale erase, a load gives the last committed or loaded payload or one whose header write has started since; each boot loads before it writes, and fewer sessions than sequence numbers |
| CrashConsistency.OldOrNew | crates/dali2rust-bsp/src/slice_store_core.rs:303-331 | with power loss as the only failure at most two payloads are possible at any moment, and one when no header is being written and a load has looked |
| CrashConsistency.NeverMissing | crates/dali2rust-bsp/src/slice_store_core.rs:190-258 | once a payload was committed or loaded, no later load of any run reports the slice missing |
| CrashConsistency.ProgramsOnlyErased | crates/dali2rust-bsp/src/slice_store_core.rs:237-245 | in every run each byte about to be programmed is erased, also when the memory of an erased bank let the session skip the scan |
| CrashConsistency.RunKeeps | crates/dali2rust-bsp/src/slice_store_core.rs:225-331 | every step of every run keeps the slot invariant: sequence numbers, the kept bank, and how far the target is staged |
| CrashConsistency.LoadNewest | crates/dali2rust-bsp/src/slice_store_core.rs:153-166 | the valid candidate with the higher sequence number is the one a load serves |
| UnprovedWrite.BeginSparesIff | crates/dali2rust-bsp/src/slice_layout.rs:87-93 | erasing the bank begin_write picks leaves the bank a load reads exactly when: with a bank served, the newest header is that bank's or its payload does not pass; with none served, the newest header's bank passes or no bank does |
| UnprovedWrite.FailedWriteIsErased | crates/dali2rust-bsp/src/slice_store_core.rs:303-315 | a concrete disciplined run: after a header write that was complete and reported failed, begin_write erases the bank a load would read although another one is served |
| UnprovedWrite.UnprovedWriteLoses | crates/dali2rust-bsp/src/slice_store_core.rs:225-258 | a concrete run: a torn header, a reboot, and a write that no load preceded destroy the committed payload with the first byte erased |
| UnprovedWrite.CommitWinsIff | crates/dali2rust-bsp/src/slice_store_core.rs:229-231 | a fresh commit is the one a load serves, before the stale erase, exactly when the sequence number has not wrapped |
| SliceCalls.NonInterference | crates/dali2rust-bsp/src/slice_layout.rs:52-79 | replacing the banks of one key leaves what is read under any other key unchanged |
| SliceCalls.BeginIsRun | crates/dali2rust-bsp/src/slice_store_core.rs:225-258 | a begin_write that erased any number of bytes is a run of the byte-wise machine |
| SliceCalls.AppendIsRun | crates/dali2rust-bsp/src/slice_store_core.rs:281-301 | an append cut after any byte, successful or not, is a run of the byte-wise machine |
| SliceCalls.HeaderIsRun | crates/dali2rust-bsp/src/slice_store_core.rs:303-319 | the header part of a commit, cut anywhere, is a run of the byte-wise machine |
| SliceCalls.StaleIsRun | crates/dali2rust-bsp/src/slice_store_core.rs:320-329 | the stale erase of a commit, cut anywhere, is a run of the byte-wise machine |
| SliceCalls.CommitIsRun | crates/dali2rust-bsp/src/slice_store_core.rs:303-331 | a whole commit is a run of the byte-wise machine |
| SliceCalls.ProgramBank | crates/dali2rust-bsp/src/slice_store_core.rs:143-151 | programming inside a bank changes that bank of the flash and nothing else |
| SliceCalls.EraseBank | crates/dali2rust-bsp/src/slice_store_core.rs:143-145 | erasing inside a bank changes that bank of the flash and nothing else |
| SliceStore.SliceStoreCore.Load | crates/dali2rust-bsp/src/slice_store_core.rs:190-223 | when no operation of the flash failed in it the call is a load of the run theorem and returns its payload, or Missing; the bank a load should read is passed over only when a read of its payload failed, an error only says that a header could not be read or that a read failed in every bank that would pass, and the payload returned is that of the bank now served |
| SliceStore.SliceStoreCore.BeginWrite | crates/dali2rust-bsp/src/slice_store_core.rs:225-258 | refused for a key without a slot and while another session holds the claim; otherwise refused exactly when an operation of the flash failed; success is a begin of the run theorem whose erase, if there was one, covered the bank, and a failure has released the claim and erased a part of the target or changed nothing |
| SliceStore.CoreWriteSession.Append | crates/dali2rust-bsp/src/slice_store_core.rs:281-301 | succeeds exactly when the session has not failed, the chunk fits and the flash took it; in every case an append of the run theorem, and on success every byte of the chunk is programmed |
| SliceStore.CoreWriteSession.Commit | crates/dali2rust-bsp/src/slice_store_core.rs:303-331 | succeeds exactly when the session has not failed and the flash took the header, and then erases the superseded bank unless the flash fails in that; in every case a commit of the run theorem, and the claim is released |
| SliceStore.CoreWriteSession.Abort | crates/dali2rust-bsp/src/slice_store_core.rs:333-334 | releases the claim and touches nothing else |
| SliceStore.SliceStoreCore.OthersUntouched | crates/dali2rust-bsp/src/slice_store_core.rs:137-145 | whatever a call on one slot did, memory and banks of every other slot read as before |
| StoreRuns.CallIsRun | crates/dali2rust-bsp/src/slice_store_core.rs:225-331 | every call with every outcome leaves the slot as a run of the byte-wise machine does |
| StoreRuns.CallsAreRun | crates/dali2rust-bsp/src/slice_store_core.rs:190-331 | every sequence of calls, failures and reboots is one run, in what it leaves on flash, in what the caller knows may be stored, and in its discipline |
| StoreRuns.StoreIsCrashConsistent | crates/dali2rust-bsp/src/slice_store_core.rs:190-331 | after any sequence of calls, whatever failed in them and however often the device rebooted, a load gives the payload last committed or loaded, or one whose commit was tried since |
| StoreRuns.StoreKeepsItsSlice | crates/dali2rust-bsp/src/slice_store_core.rs:190-331 | the same said of the views an observer of the store object sees call by call |
| SliceStore.SliceStoreCore.CandidateBanks | crates/dali2rust-bsp/src/slice_store_core.rs:153-166 | lists exactly the banks with a fitting header, newest first, unless the read of a header failed |
| SliceStore.SliceStoreCore.IsErased | crates/dali2rust-bsp/src/slice_store_core.rs:172-186 | the chunked scan says whether every byte of the bank is erased, unless a read failed |
| SliceStore.SliceStoreCore.ReadPayload | crates/dali2rust-bsp/src/slice_store_core.rs:196-208 | the chunked read gives the bytes after the header, unless a read of this payload failed |
| SliceStore.SliceStoreCore.FirstReadable | crates/dali2rust-bsp/src/slice_store_core.rs:195-222 | finds the bank the machine would load unless a read of that bank's payload failed, and none only when a read failed in every bank that would pass |
| SliceStore.WordRoundTrip | crates/dali2rust-bsp/src/slice_store_core.rs:60-89 | packing generation and bank into the served word loses nothing |
| ServedRuns.ProvedBankIsSafe | crates/dali2rust-bsp/src/slice_store_core.rs:63-106 | from a slot whose newest header is the served bank's, or one without a header, under every ordinary interleaving of one writer and any number of loads: no erase has to wait for a load, whatever served names passes and is what a load would read unless a header is just being written, and no step changes a byte of the bank served before it. Ordinary: no power cut, the served bank can be read, and a header write that fails has not left a header |
| ServedRuns.ErasedFlashIsSafe | crates/dali2rust-bsp/src/slice_store_core.rs:225-331 | the same from erased flash on, with loads racing the first write of the slice |
| ServedRuns.OrdinaryIsQuiet | crates/dali2rust-bsp/src/slice_store_core.rs:237-245 | in every state of such a run an erase starts on a bank that is not served and that no load still able to move served would serve |
| ServedRuns.NewerHeaderMisleads | crates/dali2rust-bsp/src/slice_store_core.rs:195-222 | why the start and the failing header are as they are: with a newer header in the bank that is not served, whole or torn, and any payload of its length and checksum, an ordinary run leaves served on a bank without a header |
| ServedRace.ServedIsSafe | crates/dali2rust-bsp/src/slice_store_core.rs:63-106 | the general form, with power cuts, failed header writes and passed-over banks, from any slot between sessions: whatever served names passes, and no step changes a byte of it, as long as every erase starts on a bank that is not served and that every load whose word still agrees has no header of or ranks below the served bank |
| ServedRace.ServedStaysValid | crates/dali2rust-bsp/src/slice_store_core.rs:190-331 | the general form from any state of a race |
| ServedRace.RaceStepKeeps | crates/dali2rust-bsp/src/slice_store_core.rs:190-331 | every step keeps: a load that still matches cannot pass with a bank that does not |
| ServedRace.SlowLoadIsIgnored | crates/dali2rust-bsp/src/slice_store_core.rs:84-88 | a load overtaken by fewer than 2^24 commits cannot move served |
| ServedRace.MatchIff | crates/dali2rust-bsp/src/slice_store_core.rs:70-88 | the words of a load and of served agree exactly when a multiple of 2^24 commits lies between and the bank is the same |
| ServedRace.StaleIsQuiet | crates/dali2rust-bsp/src/slice_store_core.rs:320-329 | the erase of a superseded bank after a commit meets that condition by itself |
| ServedRace.LateLoadServesErased | crates/dali2rust-bsp/src/slice_store_core.rs:195-222 | the condition is needed: in any state in which an erase is about to start on a bank that a load whose word agrees would pass with, the load ends up serving the erased bank, and the next write would take the good one |
| ServedRace.ErasingServed | crates/dali2rust-bsp/src/slice_store_core.rs:237-245 | and an erase that starts on the served bank leaves an unreadable bank served |
| ServedRace.FailedButCompleteIsReached | crates/dali2rust-bsp/src/slice_store_core.rs:303-315 | a run of one thread from erased flash reaches a slot with two readable banks, the older one served |
| ServedRace.OvertakenLoadServesErased | crates/dali2rust-bsp/src/slice_store_core.rs:190-258 | from every such slot a load overlapping the next session moves served to the bank under erasure |
| HalfBits.HalfBitBuffer.Encode | crates/dali2rust-dali-phy/src/halfbits.rs:18-31 | the buffer holds a start bit, the value from its top bit down and two stop bits as half-bits, a one dominant first; what does not fit is lost |
| HalfBits.HalfBitBuffer.PushPair | crates/dali2rust-dali-phy/src/halfbits.rs:33-41 | appends two half-bits, and nothing once the bytes are full |
| BitbangPhy.DaliBitbangPhy.Tick | crates/dali2rust-dali-phy/src/fsm.rs:231-250 | one tick brings all fields to what the transition function gives for the sampled level |
| BitbangPhy.DaliBitbangPhy.TickIdle | crates/dali2rust-dali-phy/src/fsm.rs:253-268 | counts idle ticks, debounces a start, and replays the debounced ticks into the capture |
| BitbangPhy.DaliBitbangPhy.TickRx | crates/dali2rust-dali-phy/src/fsm.rs:363-391 | records one level and closes the capture after sixteen recessive ones |
| BitbangPhy.DaliBitbangPhy.TickTx | crates/dali2rust-dali-phy/src/fsm.rs:308-341 | lead, half-bits every four ticks, collision check, end |
| BitbangPhy.DaliBitbangPhy.TickCollisionTx | crates/dali2rust-dali-phy/src/fsm.rs:344-360 | the break, its release and the look at the line |
| BitbangPhy.DaliBitbangPhy.TickTxArmed | crates/dali2rust-dali-phy/src/fsm.rs:272-282 | a forward frame yields to a dominant line in its lead, an answer does not |
| BitbangPhy.DaliBitbangPhy.StartTx | crates/dali2rust-dali-phy/src/fsm.rs:394-396 | accepted exactly when the bus is idle and the frame has a sendable length |
| BitbangPhy.DaliBitbangPhy.StartAnswer | crates/dali2rust-dali-phy/src/fsm.rs:400-402 | accepted also over a reception |
| BitbangPhy.DaliBitbangPhy.PollTxState | crates/dali2rust-dali-phy/src/fsm.rs:441-454 | reports and consumes a yield, then a collision |
| BitbangPhy.DaliBitbangPhy.TakeCompletedRx | crates/dali2rust-dali-phy/src/fsm.rs:501-508 | hands out a completed capture once |
| Reception.ReceiverRefines | crates/dali2rust-dali-phy/src/fsm.rs:253-268 | for every line history the receiver state is that of a listener that simply remembers levels from two dominant ticks on |
| Reception.CaptureIsLevels | crates/dali2rust-dali-phy/src/fsm.rs:363-391 | a capture shorter than 512 ticks is exactly the levels heard, padded recessive, in ticks/8 + 1 samples |
| Reception.ClosedFrameIsHeard | crates/dali2rust-dali-phy/src/fsm.rs:363-391 | a frame that first stays recessive for sixteen ticks at its end is heard whole after any silence |
| Reception.SpanBoundsCapture | crates/dali2rust-dali-phy/src/fsm.rs:363-391 | a capture ends sixteen ticks after the last dominant tick at the latest |
| Silence.SilenceIsCounted | crates/dali2rust-dali-phy/src/fsm.rs:213-222 | for every line history the idle count is the recessive ticks since the frame before, its sixteen closing ones included and single dominant ticks passed over, and a capture is published with the count before it, capped at 255 |
| Manchester.OfCapture | crates/dali2rust-dali-phy/src/manchester.rs:70-90 | the window holds the samples, one recessive byte and zeros |
| Manchester.PeekReadsLevels | crates/dali2rust-dali-phy/src/manchester.rs:114-142 | the byte put together by shifts is the eight levels from that position on, before, inside and past the capture |
| Manchester.WeightedPeekAround | crates/dali2rust-dali-phy/src/manchester.rs:146-163 | the heaviest of the three positions, the earlier one only when heavier than the centre, the later only when heavier than both |
| Manchester.DecodePhase | crates/dali2rust-dali-phy/src/manchester.rs:166-188 | the loop over bit positions is the recursive decoder of one phase, and the bits end up packed in bytes |
| FrameDecode.WeightIsPerfect | crates/dali2rust-dali-phy/src/manchester.rs:205-220 | only four equal levels followed by four opposite ones weigh 24 or more, and the parity is the bit |
| FrameDecode.WeightIsDistance | crates/dali2rust-dali-phy/src/manchester.rs:192-220 | the weight of eight levels is that of a clean bit less four for every step from the nearer of the two clean bits, samples in the middle of a half-bit counting twice |
| FrameDecode.HeaviestWins | crates/dali2rust-dali-phy/src/manchester.rs:146-163 | the heaviest of the expected place and its two neighbours is taken; of equal ones the expected place, then the one before it |
| FrameDecode.CleanScoresHighest | crates/dali2rust-dali-phy/src/manchester.rs:166-188 | no decode of any capture scores more than 25 for each of its bits and the start bit |
| FrameDecode.BitDecodes | crates/dali2rust-dali-phy/src/manchester.rs:146-163 | wherever one half-bit of the frame is stretched by a tick, the step at bit i reads bit i and lands on the next one |
| FrameDecode.FrameDecodes | crates/dali2rust-dali-phy/src/manchester.rs:166-188 | a capture that carries a start bit and up to 32 bits, with at most one half-bit stretched anywhere, decodes at phase 0 to exactly those bits, with the score of clean bits |
| PhaseSearch.FoundIsBest | crates/dali2rust-dali-phy/src/manchester.rs:248-263 | the search finds the centre when its length is preferred, and otherwise the one decode of the four phases around it that has a preferred length if any has, then the highest score, then the phase nearest the centre, then the earlier one; nothing else meets this |
| PhaseSearch.BetterIsAnOrder | crates/dali2rust-dali-phy/src/manchester.rs:248-263 | the comparison of decodes is a strict order, and between an earlier and a later phase decides by preferred length, score and distance from the centre, in that order |
| PhaseSearch.StepwiseIsComplete | crates/dali2rust-dali-phy/src/manchester.rs:290-318 | one phase per step ends in one step or in five, with what a run to completion finds, and not before |
| PhaseSearch.BestPhaseSearch.Step | crates/dali2rust-dali-phy/src/manchester.rs:290-318 | one step of the object is one step of the search |
| PhaseSearch.BestPhaseSearch.Run | crates/dali2rust-dali-phy/src/manchester.rs:320-326 | the loop ends, with the best decode |
| RxDecode.DecodeBackwardByte | crates/dali2rust-dali-codec/src/rx_decode.rs:37-44 | a byte exactly when the search settles on eight bits |
| RxDecode.DecodeSniffed | crates/dali2rust-dali-codec/src/rx_decode.rs:50-69 | the frame of the interrupt's own search if it made one, and of a full search otherwise |
| RoundTrip.SniffedIsDecoded | crates/dali2rust-dali-codec/src/rx_decode.rs:50-69 | the 8-, 16- or 24-bit frame handed on is the number the decode stands for, byte by byte from the top |
| RxDecode.LongestDominantRunTicks | crates/dali2rust-dali-codec/src/rx_decode.rs:71-88 | no dominant run in the capture is longer, and one is as long |
| RxDecode.IsLineHeld | crates/dali2rust-dali-codec/src/rx_decode.rs:90-92 | held exactly when some dominant run reaches the limit |
| Overlap.FirstDominantTick | crates/dali2rust-dali-codec/src/overlap.rs:47-54 | the first dominant tick; stopping at the end of the last answer misses none |
| Overlap.OverlappingBackwardCapture | crates/dali2rust-dali-codec/src/overlap.rs:65-90 | for any answers and any sampling phase the capture stores the levels from the first dominant tick up to sixteen recessive ones or 512 ticks, and nothing after them |
| Overlap.HalfStartOnTime | crates/dali2rust-dali-codec/src/overlap.rs:27-33 | a 104 us tick clock sees each 416 667 ns half-bit of an answer for four ticks, at most one of them for five: a half-bit starts at the first tick not before its time |
| Overlap.LoneAnswerDecodes | crates/dali2rust-dali-codec/src/overlap.rs:65-90 | a lone answer of any value, started at any time and sampled at any phase no later than one tick after its start, decodes to that value |
| Overlap.EqualAnswersDecode | crates/dali2rust-dali-codec/src/overlap.rs:65-90 | any number of equal answers given at the same time read as the one value they have |
| Overlap.LineJoins | crates/dali2rust-dali-codec/src/overlap.rs:36-38 | answers add up on the line: it is dominant exactly when one part of them or the other makes it so |
| Overlap.SampleLoneAnswer | crates/dali2rust-dali-codec/src/overlap.rs:98-110 | sampling and decoding, executed one after the other, return the value |
| RoundTrip.BusRuns | crates/dali2rust-dali-phy/src/fsm.rs:308-341 | a lone transmitter drives every half-bit in its turn, never takes its echo for a collision, and a receiver on the same clock samples exactly its line |
| RoundTrip.CollisionIsSeenIff | crates/dali2rust-dali-phy/src/fsm.rs:285-294 | a forward frame under way sees a collision exactly in the two middle samples of a half-bit it drives recessive, when they are dominant; a backward-length frame never does |
| RoundTrip.FrameArrives | crates/dali2rust-dali-phy/src/fsm.rs:363-391 | every value of 1 to 32 bits, driven onto an ideal line by one transceiver and sampled by another, decodes at phase 0 to the same bits, in n + 3 or n + 4 samples |
| RoundTrip.RoundTrips | crates/dali2rust-dali-phy/src/manchester.rs:166-188 | for 8, 16 and 24 bits the value that is encoded, sent, received and searched is the value decoded, at its length and in its length class |
| RoundTrip.EncodeFrame | crates/dali2rust-dali-phy/src/halfbits.rs:18-31 | the buffer the encoder fills is a sendable frame of the value |
| RoundTrip.LengthClasses | crates/dali2rust-dali-phy/src/frame_length.rs:16-27 | the sample counts of the three lengths fall into their classes |
| RoundTrip.OverlappingAnswersClassBackward | crates/dali2rust-dali-phy/src/frame_length.rs:16-22 | two answers of any values that start within 66 ticks of each other complete exactly one capture, sixteen ticks after the last dominant tick of both and holding both; it classes as backward exactly when they span fewer than 128 ticks, as they do when they start within 48 |
| BusTransfer.Transfer | crates/dali2rust-dali-phy/src/fsm.rs:231-250 | one object encodes and drives, another samples the same line, both tick by tick, and the value decoded from the capture is the value sent |
| BusTransfer.TickBoth | crates/dali2rust-dali-phy/src/fsm.rs:231-250 | one tick of two objects on one line is one tick of the pair |
| PhySteps.ListeningTick | crates/dali2rust-dali-phy/src/fsm.rs:253-268 | while listening a tick touches the receiving half only and completes a capture only at the sixteenth recessive tick |
| PhySteps.SendingTick | crates/dali2rust-dali-phy/src/fsm.rs:308-360 | while sending a tick goes on, starts a break, or ends the transmission in one of three ways; nothing is received |
| PhySteps.CompletesSixteenAfter | crates/dali2rust-dali-phy/src/fsm.rs:203-210 | a capture completes exactly sixteen samples after the last dominant one, and the idle count says so |
| IsrObject.PhyIsrCore.Tick | crates/dali2rust-dali-phy/src/isr.rs:406-430 | the steps of the interrupt in the source's order have the effect of one tick of the machine; after it, as after every call, requests are conserved, captures in order, answers in their slot and window events on their exchange |
| IsrObject.PhyIsrCore.ApplyRequestedCancel | crates/dali2rust-dali-phy/src/isr.rs:557-586 | drops cell and queue, and the pending request unless it is on the wire; acknowledges |
| IsrObject.PhyIsrCore.ArmPendingTx | crates/dali2rust-dali-phy/src/isr.rs:536-554 | cancel, then the answer, then the window and the line, then a forward frame |
| IsrObject.PhyIsrCore.ArmPendingForward | crates/dali2rust-dali-phy/src/isr.rs:589-616 | takes the queue before the cell, waits for the gate, arms or rejects |
| IsrObject.PhyIsrCore.TryArmAnswer | crates/dali2rust-dali-phy/src/isr.rs:626-642 | stale, held back, expired or armed, by epoch, slot and line |
| IsrObject.PhyIsrCore.AbortBatchTail | crates/dali2rust-dali-phy/src/isr.rs:754-766 | voids the pending request, drops the queue, raises the abort flag |
| IsrObject.PhyIsrCore.ReportForwardCompletion | crates/dali2rust-dali-phy/src/isr.rs:866-893 | the ends of a forward frame, cancelled or not |
| IsrObject.PhyIsrCore.ReportCollisionOrRestart | crates/dali2rust-dali-phy/src/isr.rs:896-904 | one restart when the line came back, a report otherwise |
| IsrObject.PhyIsrCore.DrainCompletedRx | crates/dali2rust-dali-phy/src/isr.rs:948-967 | classes a capture by length and routes it |
| IsrObject.PhyIsrCore.PushSnifferCapture | crates/dali2rust-dali-phy/src/isr.rs:1018-1037 | numbers a capture, holds a long one, passes a short one on |
| IsrObject.PhyIsrCore.StepHeldCapture | crates/dali2rust-dali-phy/src/isr.rs:1040-1058 | one phase of the held capture; stages the table's answer at the end |
| IsrObject.PhyIsrCore.SubmitTxFor | crates/dali2rust-dali-phy/src/isr.rs:1110-1123 | accepted exactly when no cancel is pending, the length is sendable and the cell is free |
| IsrObject.PhyIsrCore.QueueTxFor | crates/dali2rust-dali-phy/src/isr.rs:1194-1219 | accepted exactly when no cancel is pending, the length is sendable and the ring has room |
| IsrObject.PhyIsrCore.CancelExchange | crates/dali2rust-dali-phy/src/isr.rs:1229-1233 | asks for a cancel, replacing an earlier request |
| IsrObject.PhyIsrCore.BeginExchange | crates/dali2rust-dali-phy/src/isr.rs:1261-1269 | hands out the next exchange id, never zero |
| IsrObject.PhyIsrCore.CloseBackwardWindow | crates/dali2rust-dali-phy/src/isr.rs:1324-1330 | closes the window of the current exchange only |
| IsrObject.PhyIsrCore.PopSessionEventFor | crates/dali2rust-dali-phy/src/isr.rs:1243-1251 | the loop passes over events of other exchanges |
| IsrObject.PhyIsrCore.PopRx | crates/dali2rust-dali-phy/src/isr.rs:1279-1281 | takes the first capture of the sniffer ring |
| IsrObject.PhyIsrCore.TakeBatchAborted | crates/dali2rust-dali-phy/src/isr.rs:1239-1241 | reads the abort flag and lowers it |
| IsrInvariant.StepLasts | crates/dali2rust-dali-phy/src/isr.rs:406-430 | every tick and every call keeps all of it together: each request in one place, captures in order and searched, answers on time on the wire, window events stamped with their exchange |
| IsrBase.StepRests | crates/dali2rust-dali-phy/src/isr.rs:406-430 | every tick and every call keeps the base invariant: busy flag, frame on the wire and pending request agree, answers are never broken off, no window under a forward frame |
| IsrBase.ArmForwardBase | crates/dali2rust-dali-phy/src/isr.rs:589-616 | a request that passed the checks at the door is never rejected at the line |
| IsrLedger.RequestsAreConserved | crates/dali2rust-dali-phy/src/isr.rs:754-777 | in every run, with cancellations or without, each accepted request is in exactly one of: cell, queue, pending slot, completed, collided, voided, dropped, cancelled; none is rejected, none restarted twice, and every event pushed is in the ring, taken or counted as dropped, and none is in the ring that was not pushed |
| IsrFates.EveryRequestOnce | crates/dali2rust-dali-phy/src/isr.rs:865-945 | in every run without cancellation each accepted request is in one place, driven to its last half-bit at most once and restarted at most once, and the TxComplete, TxCollision and TxVoided events ever pushed are, in order, the ends the requests came to, each of its kind and stamped with the exchange the request was submitted for |
| IsrOrder.BatchesGoOutInOrder | crates/dali2rust-dali-phy/src/isr.rs:1194-1219 | in every run, with cancellations or without: queued requests wait in the order they were queued, behind the one taken up, and were put on the wire in that order; every request put there is the one accepted under its tag, or that one restarted, and the forward frame on the wire is the frame of the last of them, after the silence it asked for |
| IsrOrder.QueueGoesFirst | crates/dali2rust-dali-phy/src/isr.rs:737-751 | a request that was submitted alone is taken up only with nothing queued |
| IsrReports.LastHalfBitCompletes | crates/dali2rust-dali-phy/src/fsm.rs:308-341 | a frame leaves the wire as sent in the tick after its last half-bit began, and in no other case |
| IsrReports.DropsRaiseTheFlag | crates/dali2rust-dali-phy/src/isr.rs:754-766 | requests leave the queue unsent only in a tick that leaves the abort flag up |
| IsrReports.AbortFlagIff | crates/dali2rust-dali-phy/src/isr.rs:754-777 | the abort flag is up after a tick exactly when it was before, queued requests were dropped in it, or a batched one was voided |
| IsrEvents.SentIsReported | crates/dali2rust-dali-phy/src/isr.rs:907-918 | a frame driven out whole is completed and reported in the same tick, to its own exchange and with the idle time before it, and its window opens exactly if it is a query; in no other tick is anything completed |
| IsrEvents.CollisionIsReported | crates/dali2rust-dali-phy/src/isr.rs:896-929 | a break that ends without a restart reports the collision to the exchange whose frame it was and empties the queue; one that ends with a restart keeps the request with its gate used up |
| IsrEvents.VoidedIsReported | crates/dali2rust-dali-phy/src/isr.rs:998-1015 | a request voided by a foreign frame is reported to its own exchange, before the window hears of that frame |
| IsrSniffer.NeverOverrun | crates/dali2rust-dali-phy/src/isr.rs:1017-1058 | in every run nothing is overrun, captures reach the ring in sequence order, and a 24-bit one carries the result of a complete search |
| IsrSniffer.HeldAdvances | crates/dali2rust-dali-phy/src/isr.rs:1040-1058 | a held capture advances by one phase in every tick, is out after at most five, and no capture completes meanwhile |
| IsrAnswers.AnswersKeepTheirSlot | crates/dali2rust-dali-phy/src/isr.rs:624-726 | in every run every answer armed was armed in its slot by the interrupt's own count, with no forward frame captured and none sent since its query; none is rejected or collides, and all that left the wire were sent |
| IsrLine.AnswersAreSheltered | crates/dali2rust-dali-phy/src/isr.rs:681-701 | in every run, on the level history of the line: every answer armed was asked for by a frame decoded as 24 bits that ended at its edge, and when it was armed no frame was still being received that had begun less than 24 ticks after that edge, and the line had not been dominant for the last 24 samples |
| IsrLine.AnswerIsArmedIff | crates/dali2rust-dali-phy/src/isr.rs:626-726 | after every run the next tick arms an answer exactly when nothing is being sent, one is staged, nothing was captured or sent since its query, that query's last edge was 59 to 97 ticks ago, and the line is free in that sense |
| IsrLine.LineIsExact | crates/dali2rust-dali-phy/src/isr.rs:681-701 | whenever only listening went on since the edge, the line is called busy exactly when it is not free in that sense |
| IsrLine.AnswerCellIsFree | crates/dali2rust-dali-phy/src/isr.rs:1061-1074 | in every run the answer cell is empty when a search may end, so no answer is refused for another |
| IsrTiming.AnswersAreOnTime | crates/dali2rust-dali-phy/src/isr.rs:624-726 | in every run, for every answer armed: the level history of the line has a dominant sample followed by sixteen recessive ones where its query ended, the answer first drives the line 63 to 101 ticks after that dominant sample, recessive until then and dominant in that tick, and from there on the half-bits of its value, four ticks each |
| IsrTiming.RunTiming | crates/dali2rust-dali-phy/src/isr.rs:969-974 | in every run the edge remembered of each forward capture is where that capture ended on the line, and staged and held queries carry their own |
| IsrTiming.SlotIsInsideTheBounds | crates/dali2rust-dali-phy/src/backward_window.rs:19-25 | from the first recessive sample the answer starts inside the bounds of the standard; from the last dominant one it exceeds the upper bound exactly when it was armed in the last tick of its slot |
| IsrLatest.LatestArmIsReached | crates/dali2rust-dali-phy/src/isr.rs:644-726 | a run from power-up that does so: a query, its answer staged, the line held low over the slot and let go in its last tick |
| IsrAnswers.EpochsAgree | crates/dali2rust-dali-phy/src/isr.rs:631-634 | the 8-bit epochs agree only when nothing went by since the query |
| IsrAnswers.CaptureStampsEdge | crates/dali2rust-dali-phy/src/isr.rs:969-974 | the edge remembered for a forward capture is the last dominant sample, sixteen ticks back |
| IsrAnswers.AnswerRuns | crates/dali2rust-dali-phy/src/fsm.rs:272-293 | whatever the line and the tasks do, an armed answer drives one half-bit after the other |
| IsrAnswers.AnswerEndsSent | crates/dali2rust-dali-phy/src/isr.rs:855-863 | and is counted as sent in the tick after the last one |
| IsrAnswers.StagedFrameIsEncoded | crates/dali2rust-dali-phy/src/isr.rs:1067-1068 | the frame staged is the encoder's frame of the answer |
| IsrWindows.WindowDiscipline | crates/dali2rust-dali-phy/src/isr.rs:985-1015 | in every run no forward frame is on the wire under an open window, each window gets at most one event, and the window events ever pushed are exactly those, in order, each stamped with the exchange that opened its window and preceded, since the last one, by the report that this exchange's frame was sent |
| IsrWindows.WindowOpensOnQuery | crates/dali2rust-dali-phy/src/isr.rs:907-918 | a window opens only when a query has gone out whole, for the exchange of that query |
| IsrWindows.ArmsOutsideWindows | crates/dali2rust-dali-phy/src/isr.rs:536-554 | a forward frame is armed only with no window open, no answer staged and an idle, undisturbed line |
| IsrSession.ClosingTellsOfReception | crates/dali2rust-dali-phy/src/isr.rs:1324-1349 | after every run closing the window closes that of the current exchange and no other, and tells of a reception, with the silence before it, exactly when the window is that exchange's and a reception is under way |
| IsrSession.CaptureIsHandedOn | crates/dali2rust-dali-phy/src/isr.rs:948-1037 | a capture the transceiver completes is handed on in the same tick: to the open window, which it closes, as a reply holding that capture or as a foreign frame with its silence and length, and to the sniffer unless it is of backward length and a window took it |
| IsrSession.PopTakesTheFirst | crates/dali2rust-dali-phy/src/isr.rs:1243-1251 | a pop takes out the first event of its exchange with those of others before it, and empties the ring when there is none |
| IsrSession.IdsAreDistinct | crates/dali2rust-dali-phy/src/isr.rs:1261-1269 | no exchange id is zero, and none is handed out again before all others have been |
| IsrCancel.CancelledIsNeverArmed | crates/dali2rust-dali-phy/src/isr.rs:556-586 | once a cancel is acknowledged no request accepted before it is ever armed again, in any run |
| IsrCancelled.CancelledIsSilent | crates/dali2rust-dali-phy/src/isr.rs:556-586 | from the tick that acknowledges the cancel of an exchange on, in every run that submits nothing for it and cancels nothing else, no event is addressed to it |
| IsrCancelled.SecondCancelSpeaks | crates/dali2rust-dali-phy/src/isr.rs:865-893 | and with a cancel of another exchange before it ends, the frame still on the wire is reported to its exchange as sent |
| IsrOrphan.LaterRequestsSurviveIff | crates/dali2rust-dali-phy/src/isr.rs:865-893 | requests that came after an acknowledged cancel survive the cancelled frame's tick, whatever the line and the answer table say, exactly when the cancel still stands, none is queued, or no collision break ends in it |
| IsrOrphan.SecondCancelLosesTheQueue | crates/dali2rust-dali-phy/src/isr.rs:556-586 | two acknowledged cancels during a break: a request queued after both is dropped when the cancelled frame's break ends |
| IsrRecovery.RecoveryTiming | crates/dali2rust-dali-phy/src/fsm.rs:344-360 | after a collision on an otherwise idle line: twelve dominant ticks, release, and for every gap g of 5 to 255 the first edge of the restarted frame exactly g ticks after release |
| IsrRecovery.ShortGapIsReported | crates/dali2rust-dali-phy/src/fsm.rs:72-74 | below five ticks there is no restart: the collision is reported |
| IsrRecovery.CollisionStartsBreak | crates/dali2rust-dali-phy/src/fsm.rs:297-304 | a collision seen by the transmitter starts the break of its own request |
| IsrRecovery.BreakIsReachable | crates/dali2rust-dali-phy/src/fsm.rs:285-304 | a run from power-up that reaches such a break |
| Ring.SpscRing.TryPush | crates/dali2rust-dali-phy/src/ring.rs:34-51 | appends exactly when fewer than capacity less one items are in, and changes nothing otherwise |
| Ring.SpscRing.TryPop | crates/dali2rust-dali-phy/src/ring.rs:54-70 | takes the first item, and nothing from an empty ring |
| Ring.StepRefines | crates/dali2rust-dali-phy/src/ring.rs:34-70 | every interleaved step of producer and consumer is a step of a queue of capacity less one, or leaves it alone |
| Ring.NothingLostOrReordered | crates/dali2rust-dali-phy/src/ring.rs:34-70 | from an empty ring on, in every interleaving, the consumer has got a prefix of what was accepted, in order, and at most capacity less one are in between |
| Ring.RefusalsAreHonest | crates/dali2rust-dali-phy/src/ring.rs:38-41 | a push is refused exactly when the ring was full as the tail was read, a pop exactly when it was empty as the head was read |
| CommandCell.AtomicCommandCell.SendPackedTx | crates/dali2rust-dali-phy/src/command.rs:59-87 | accepted exactly when the length is valid and nothing waits; then all fields wait, otherwise nothing changes |
| CommandCell.AtomicCommandCell.TakeCommand | crates/dali2rust-dali-phy/src/command.rs:91-125 | yields the waiting command and empties the cell |
| CommandCell.EachCommandOnce | crates/dali2rust-dali-phy/src/command.rs:59-125 | from an idle cell on, with every store and load a step of its own, each accepted command is taken once, in order, all its words from the same send |
| CommandCell.FlipSucceeds | crates/dali2rust-dali-phy/src/command.rs:83-86 | a send that saw an idle cell still finds it idle when it flips the state |
| AnswerTable.AddressForms | crates/dali2rust-dali-phy/src/answer_table.rs:64-76 | exactly broadcast, broadcast to the unaddressed, the own short address and the own groups address the device |
| AnswerTable.EntryRoundTrip | crates/dali2rust-platform/src/answer_table.rs:26-39 | an entry gives back its live answer while the lease lives and its lapsed answer afterwards |
| AnswerTable.FilledTableAnswers | crates/dali2rust-dali-phy/src/answer_table.rs:40-61 | a table whose entries are filled by what is asked, opcode 0x30 + k at k and COMPARE, VERIFY and QUERY SHORT ADDRESS behind, answers any query with what it was filled with for exactly that question, and is silent to every frame that asks nothing of this device |
| AnswerTable.EntryIsForTheQuery | crates/dali2rust-dali-phy/src/answer_table.rs:40-61 | the entry the lookup takes is the one for what the frame asks; a VERIFY of another address gets nothing |
| AnswerTable.SetIsAnswered | crates/dali2rust-platform/src/answer_table.rs:52-64 | what was set for an opcode is what its queries are answered, no other answer changes, and opcodes outside 0x30 to 0x4F are refused |
| AnswerTable.LeaseLasts | crates/dali2rust-dali-phy/src/answer_table.rs:30-37 | a lease lives for exactly its milliseconds, at most 3000 of them, in whole ticks, until the counter comes round to it again |
| AnswerTable.WholeReadAnswers | crates/dali2rust-dali-phy/src/answer_table.rs:244-276 | a read that is whole and not torn answers exactly what that publish has for what the frame asks, in the half the lease selects, to the query after the capture it accounts for and for 100 ms |
| AnswerTableCell.TableCopy.Write | crates/dali2rust-dali-phy/src/answer_table.rs:163-175 | the copy holds the image and its generation is even again |
| AnswerTableCell.Cell.Publish | crates/dali2rust-dali-phy/src/answer_table.rs:201-207 | the image becomes the live one |
| AnswerTableCell.Cell.Answers | crates/dali2rust-dali-phy/src/answer_table.rs:228-233 | between publishes the table answers what the last publish says, and nothing before the first |
| Seqlock.AnswersComeFromOnePublish | crates/dali2rust-dali-phy/src/answer_table.rs:163-300 | under any interleaving of the stores of publishes and the loads of lookups an answer is what one single publish says: right predecessor capture, at most 961 ticks old, addressed, in the half the lease selects; a lookup is torn only if a publish overtook it |
| Seqlock.StepKeeps | crates/dali2rust-dali-phy/src/answer_table.rs:163-300 | every store and every load keeps: a copy is odd while written and otherwise a whole publish, and what a lookup has loaded is what the copy holds as long as the generation stands |
| ConfirmationBridge.PendingConfirmationSlots.TryRegister | crates/dali2rust-api/src/confirmation_bridge.rs:153-174 | refused exactly when the id is in use or no slot is free; otherwise the first free slot, with a new generation |
| ConfirmationBridge.PendingConfirmationSlots.Cancel | crates/dali2rust-api/src/confirmation_bridge.rs:176-187 | frees the slot of the id, if there is one |
| ConfirmationBridge.PendingConfirmationSlots.TakeSlot | crates/dali2rust-api/src/confirmation_bridge.rs:189-213 | the slot of the confirmation is taken and the body made from it; an unmatched confirmation is counted |
| ConfirmationBridge.PendingConfirmationSlots.Deliver | crates/dali2rust-api/src/confirmation_bridge.rs:51-61 | the body reaches its waiter exactly when the generation is still its own |
| ConfirmationBridge.PendingConfirmationSlots.Receive | crates/dali2rust-api/src/confirmation_bridge.rs:63-69 | takes the body of the own generation, once |
| ReplyIsolation.RepliesAreIsolated | crates/dali2rust-api/src/confirmation_bridge.rs:189-215 | under any interleaving of register, cancel, the two halves of dispatch and receive, a handle receives at most one body: the one its own formatter made of a dispatched confirmation of its own id, or the fixed one when that formatter made none; ids in slots are distinct |
| ReplyIsolation.StepKeeps | crates/dali2rust-api/src/confirmation_bridge.rs:44-84 | every step keeps each handle in at most one of: live slot, body in flight, body waiting, received |
| ReplyIsolation.OwnersStay | crates/dali2rust-api/src/confirmation_bridge.rs:153-174 | id and formatter of a handle never change |
| RouteMask.LowestCleared | crates/dali2rust-bus/src/bus.rs:747-749 | the walk takes out the lowest bit of the mask and leaves the others |
| BusRouting.BuildRouteTable | crates/dali2rust-bus/src/bus.rs:28-48 | fails exactly on too many subscribers or an unknown name; otherwise bit s of a variant is set exactly when subscriber s declared it |
| BusRouting.Bus.DeliverToTargets | crates/dali2rust-bus/src/bus.rs:739-766 | the frame goes once to each inbox of the mask; the count is zero exactly when none accepted |
| BusRouting.Bus.FanOutConfirmation | crates/dali2rust-bus/src/bus.rs:691-716 | the frame goes once to every confirmation inbox; the count is zero exactly when none accepted |
| BusRouting.Bus.InjectDeliveryRejected | crates/dali2rust-bus/src/bus.rs:768-793 | the synthetic rejection, when there is one, is fanned out or counted as dropped |
| BusRouting.Bus.DispatchCommand | crates/dali2rust-bus/src/bus.rs:718-737 | the whole effect of one command on inboxes and counters |
| BusRouting.Bus.ProcessCommands | crates/dali2rust-bus/src/bus.rs:668-689 | one turn dispatches the frame at hand and at most 31 more, in order, and leaves the rest |
| BusRouting.ExactRouting | crates/dali2rust-bus/src/bus.rs:668-793 | a command lands once in each inbox that declared it and has room and nowhere else, and is counted as lost where there is none and as unrouted when no inbox declared it; if none took it the rejection is offered once to every confirmation inbox, and counted as dropped if none of those took it |
| BusRouting.TurnsDeliverInOrder | crates/dali2rust-bus/src/bus.rs:668-766 | over any sequence of frames every inbox gets exactly the commands it declared, in order and up to its room, and its counters say how many came and how many were lost |

## Left out

- SliceStore.RawFlash: reads, writes and erases may fail; a failed write or erase has reached a prefix of its range. What the ESP-IDF flash driver does beyond that is not modelled.
- ServedRuns.ProvedBankIsSafe: no power cut within the run (CrashConsistency has those, one thread at a time), no failing read of the served bank and no failing header write that left a readable header; sequence numbers do not run out and no load outlives 2^24 commits. A boot whose newest header is torn does not start such a run; ServedIsSafe and CrashConsistency cover it.
- ServedRace.ServedIsSafe: its condition at the start of an erase is about what loads in flight have read. It also rules out a load that would not pass now, although only some payloads written later would let it pass.
- CrashConsistency.CrashConsistent: the sequence number is 32 bits; runs with 2^32 sessions are outside it, and CommitWinsIff says what the last number does.
- SliceStore.SliceStoreCore.Load: claims nothing about the result of a load that runs while a commit erases the bank it reads.
- Weak memory: atomics are taken as sequentially consistent; loads and stores are steps of their own in the seqlock, the ring, the command cell, the served word and the two halves of a dispatch, and whole calls elsewhere.
- BitbangPhy.DaliBitbangPhy: the receiving and sending fields of the one struct are two objects; the level is an argument of the tick and the driven level a field instead of GPIO registers.
- PhaseSearch.BestPhaseSearch: preferred bit lengths are a set of numbers instead of a 32-bit mask.
- IsrObject.PhyIsrCore: small groups of fields are records, rings are bounded sequences, and request tags and histories are extra fields that nothing reads.
- IsrObject.PhyIsrCore.Tick: the answer the table has for the capture under search is an argument, so the properties hold for any table.
- IsrTiming.AnswersAreOnTime: wire tick and capture counters do not wrap around; only the interrupt stages answers, not submit_answer from a task.
- IsrRecovery.RecoveryTiming: is about a line that only this transmitter drives, with no answer staged and no cancel requested.
- Seqlock.AnswersComeFromOnePublish: generations are counted without wrap-around, as are those of ReplyIsolation.RepliesAreIsolated.
- ConfirmationBridge.PendingConfirmationSlots: a wait with a timeout is the receive it ends in; poisoned locks are not modelled.
- BusRouting.Bus: an inbox is a bounded queue that may be closed; one that also subscribes to events is two inboxes here. Event and confirmation drains, publish and its counters are not modelled.
- The tick probe, late-tick booking, line-held packing, bus failure flags and diagnostic counters of the interrupt.
- The answer cell as a structure of its own: producer and consumer are the same interrupt, so it is one optional value.
- What merged answers of different values decode to.
- ESP-IDF bindings, firmware composition, the HTTP and web layers, display, persistence scheduling and the scripts.
- Envelope contents and wire formats of bus messages: payloads are opaque, and the synthetic rejection is a function argument.
