# A model of the MSX diagnostic cartridge firmware

The firmware runs on an RP2350 that sits in an MSX cartridge slot. Programmable I/O machines,
DMA channels, two cores and a Z80 work on shared data with few locks. This project models the
parts where they meet and proves what the firmware relies on, for every input and every
interleaving.

| module | what it models | main results |
|---|---|---|
| `RomLut` | the ROM store and its 64 KB lookup table | the table is the plain ROM, padded with $FF |
| `CartServe`, `CartServeProofs` | two PIO programs, two chained DMA channels and the bus, one step at a time | every run answers every read with the ROM byte, fetched during that read; lock-step; drive safety; no deadlock |
| `CaptureRing`, `RingRuns` | the lock-free DMA rings of `boot_capture.c` and `txn_capture.c`, drained by one core and reset by the other | exactly-once in-order drain, the exact no-loss condition, exactly when the overrun guard fires |
| `BusIntegrity` | the read-stream analyser | every verdict is a statement about every read of the stream |
| `BootDetect`, `BootCapture`, `CaptureDrain` | the boot-phase detector, the cart-read log, and the drain that merges two rings and the log into the detector, with resets at any moment | detector exactness, confluence, independence of the drain schedule; what the log hands over again |
| `TxnCapture` | the drain of the read ring into the read-stream analyser | the analyser is the fold of the words handed out |
| `BootDiag`, `DiagRound`, `RoundRuns`, `RoundClock` | the diagnostic round on core 0 with core 1 draining three rings and a log | the frozen result is the specification over what the passes' samples found; lifecycle and deadline across clock wrap |
| `CaptureRuns`, `BusCycles`, `RoundBus`, `RoundStop` | the same runs told from the steps and the bus alone: which transfers a channel stores, which Z80 cycle a stored word is, what each pass's window offered | every pass captures exactly what its window offered; reads, phases, side flags and anomalies of the result as facts about bus cycles and probe snapshots; after which pass a round stops |
| `LogRefeed`, `OverflowRun`, `RoundWitness` | runs of whole rounds, built step by step | exactly when a phase of the result can come from before the round; a round whose report loses a finding |
| `Buttons`, `ButtonRuns`, `ButtonPresses`, `ButtonTrace`, `ButtonExact`, `ButtonSelect` | debounce, arming, combo, deferred shorts, hold-to-fire | what every poll of every run emits, in terms of the raw samples alone; which combos let a press of SELECT give two events |
| `AdcRails` | the integer running average | band invariant, exact limit, convergence |
| `UsbSerial` | the line rings and the receive accumulator | lines are those of the whole stream, whatever the chunking; rings refine a queue |
| `MemTest` | the Z80 RAM and VRAM tests | pass iff no bit is stuck, else the lowest failing address |
| `TextBuffer`, `Causes`, `Report` | truncating text reports | what is written is a prefix of the full text; no finding masks another; when the 400-char buffer loses one |
| `TextReading`, `CauseReading`, `ReportLines`, `ReportSections`, `ReportReading` | reading these texts: numbers, bit names, lines, sections | split at its newlines, each text says each finding of the result and nothing else |
| `Words`, `Traces` | 32-bit wrap-around, bit positions, population count; traces of a step relation | |

How things are represented: an integer with C width is an `int` with the wrap-around written out
(`Wrap32`); a bit mask is the set of its bit positions; objects that the firmware updates in
place are classes, each method proved against a function of the old state, and the theorems are
lemmas about those functions. Ghost fields (`hist`, `all`, `got`, `passes`, `ends`, `stream`, ...) record
histories that the firmware does not keep.

## Assumptions about the environment

- `CartServe.BusTiming`, after the comment in `src/firmware/pios/cart_serve.pio:49-51`: the bus
  holds a read of the slot until both machines wait for its end, starts the next one only when
  both are back at their wrap target, and does not change /SLTSL or /RD between a machine's
  `wait 0 gpio 29` and its `jmp pin`.
- `cart_serve_reset_pipeline` and `cart_serve_disable_drive` are single steps.
- `DiagRound.Round.Tick` is called with the settle deadline passed only after a drain that was in
  progress has returned (60 ms). A tick is a single step.
- One sample of a ring's write count (`bd_dma_total`, `tx_dma_total`), one turn of a drain loop, and
  each of `alog_reset`, `boot_detect_reset`, `boot_capture_reset` and `txn_capture_reset` is a single
  step. Any step of either core or of the DMA may come between two of these.
- Button runs start at `buttons_init` and are shorter than 2^32 ms; all but those of `ButtonSelect`
  use the combo {UP, DOWN} of `main.c`.

## Where the code differs from what is said about it

- `boot_capture.c:158-161` says that the write count is right as long as the DMA does not lap the
  reader by more than a ring, and that the overrun guard covers the rest. Exactly one ring of
  words already looks like none (`CaptureRing.FullRingLooksEmpty`; `RingRuns.FullRingIsLost` is a
  run), and the count is exact if and only if every gap is below 4096
  (`CaptureRing.CountExactIff`). No lag makes the guard fire: from every capture reset that falls
  outside a drain to the next reset it is dead and the discard counter stays 0
  (`RingRuns.OverrunBranchIsDead`).
- What does make it fire is a reset. The RESET command resets the rings on core 0 without a lock
  (`cmd_dispatch.c:78`), perhaps while core 1 is between a sample and the write-back of its cursor.
  `RingRuns.GuardFiresIff` says exactly when the guard then fires; `RingRuns.StaleRingIsHandedOut`
  is a run in which it hands out 4096 words although the DMA has written none since the reset.
- `cart_serve.c:235-236` sets out to flush what an earlier boot left over. Nothing in flight
  survives, but the output latch does. After a reset the pads drive its old byte if and only if no
  `out pins` has come yet (`CartServeProofs.NothingSurvivesReset`), so the next read does so from
  `out pindirs` on (`CartServeProofs.StaleLatchIsDrivenBeforeOutPins`).
- `buttons.c:15-17` suggests that releasing a combo button early fires its short. The code drops
  it (`ButtonExact.EarlyReleaseEmitsNothing`; `ButtonExact.EarlyReleaseDropsTheShort` is a run).
- `buttons.c:201-203` lets SELECT fire once per press. That holds in every run of every combo but
  those that are on and name SELECT exactly once (`ButtonSelect.SelectTwiceIff`).
- `boot_detect.c` has branches for writes of $FFFF and $FE00 that the test for $C000 and above
  already covers.
- `cart_serve.h:17` speaks of three state machines; the code enables two.
- `boot_diag.h` says of the cause list that no observation masks another. That holds for the list
  itself (`Causes.OneLinePerFinding`); in the report it holds iff the list has at most 400 chars
  (`Report.ReportIsCompleteIff`), and `OverflowRun.ARoundOverflows` is a run of a whole round whose
  result exceeds them.
- `boot_capture.c:144` says that the reset pulse re-arms the cart-read log. The passive pulse of a round
  does not (`msx_runtime.c:127-131`), `alog_init` runs once (`boot_diag.c:217-221`), and each pass puts
  the log's cursor back to 0 (`boot_capture.c:143`). So log words come again, in the next pass
  (`LogRefeed.ComesAgainInTheNextPass`) and in the next round, right after `boot_detect_reset`
  (`LogRefeed.ComesAgainInTheNextRound`). For every run: of any two passes with no re-arming from the
  start of the first to the end of the second, one handed over a beginning of what the other did
  (`RoundRuns.LogWordsComeAgain`), and every pass of a round finds in the log first what was left over
  from before the round (`RoundRuns.LogOfPasses`). A phase of the result can come from before the round
  if and only if the log, when the round begins, still holds a read of $4000 or $4001
  (`LogRefeed.OldPhaseIff`), and that phase is CART_SCAN (`LogRefeed.OldPhaseIsCartScan`). A log that
  is full at that moment hears nothing of the round (`LogRefeed.FullLogHearsNothing`).

## Model

| member | source | states |
|---|---|---|
| RomLut.RomLutBuild | src/firmware/rom_lut.c:4-12 | for all 65536 raw addresses, the table holds what a plain ROM of that image shows there |
| RomLut.RomStore.Init | src/firmware/cart_serve.c:110-121 | for every image and size, copy, pad and build give the plain ROM; a null image with a size keeps the front of the store |
| CartServeProofs.PointerFormula | src/firmware/cart_serve.c:122-125 | the two shifted-in halves are a table pointer if and only if the table is 64K aligned |
| CartServeProofs.StepKeepsInv | src/firmware/pios/cart_serve.pio:20-75 | every step of either machine, either channel, the bus or the firmware keeps the pipeline invariant |
| CartServeProofs.RomRefinement | src/firmware/pios/cart_serve.pio:20-75 | in every run every finished read latched the ROM byte of its address, fetched during that very read, and nothing once drive is disabled |
| CartServeProofs.NoByteServesTwoReads | src/firmware/cart_serve.c:44-56 | no fetched byte answers two reads |
| CartServeProofs.DrivenByteIsCurrent | src/firmware/pios/cart_serve.pio:64-69 | the pads carry the current read's byte if and only if the responder is past `out pins` |
| CartServeProofs.NothingSurvivesReset | src/firmware/cart_serve.c:226-264 | after a pipeline reset nothing older is in flight; what the pads drive is older than the reset if and only if no `out pins` has come since, and is then the byte that the latch held |
| CartServeProofs.StaleLatchIsDrivenBeforeOutPins | src/firmware/cart_serve.c:251-258 | a run that serves a read, resets, and in the next read drives the first read's byte |
| CartServeProofs.LockStep | src/firmware/cart_serve.c:48-56 | pointers pushed are bytes pulled plus at most one in flight; no trigger of the data channel is lost |
| CartServeProofs.DriveSafety | src/firmware/pios/cart_serve.pio:62-74 | D0-D7 are outputs only while the level shifter points to the bus, at every instruction boundary of every run |
| CartServeProofs.DisableIsForGood | src/firmware/cart_serve.c:200-224 | once drive is disabled the pads never drive again, not even after a pipeline reset |
| CartServeProofs.ReadMakesProgress | src/firmware/pios/cart_serve.pio:20-75 | during a read every device step, whichever is taken, lowers the work left |
| CartServeProofs.ReadIsNeverStuck | src/firmware/pios/cart_serve.pio:20-75 | no deadlock: unless the read may end, some device step is enabled |
| CartServeProofs.DeviceStepsOfOneRead | src/firmware/pios/cart_serve.pio:20-75 | a read needs at most 38 device steps under any schedule and can then end |
| CaptureRing.AliasingByWholeLaps | src/firmware/boot_capture.c:162-172 | for any sample schedule the tracked count is short of the true one by one ring per lap between samples, and by nothing else |
| CaptureRing.CountExactIff | src/firmware/boot_capture.c:158-172 | the count is exact if and only if fewer than 4096 words arrive between any two samples |
| CaptureRing.ExactlyOnceInOrder | src/firmware/boot_capture.c:174-193 | if no word is read after 4096 newer ones, what was handed out is a prefix of the stream; word by word the condition is exact |
| CaptureRing.LosslessDrain | src/firmware/boot_capture.c:174-193 | with both conditions the words of all drains are all words sampled, once each and in order |
| CaptureRing.FullRingLooksEmpty | src/firmware/boot_capture.c:158-161 | a gap of 4096 or more loses at least a ring for good; a gap of exactly 4096 looks like none |
| CaptureRing.StepKeepsInv | src/firmware/boot_capture.c:117-193 | every DMA write, every part of a drain and every reset, in any order, keeps the ring's invariant |
| RingRuns.HistoryIsExact | src/firmware/boot_capture.c:174-193 | from every reset outside a drain to the next reset, each word handed out was the youngest of its slot, and between drains the reader has caught up |
| RingRuns.OverrunBranchIsDead | src/firmware/boot_capture.c:180-183 | over the same stretches the guard never fires and the discard counter is 0 |
| RingRuns.GuardFiresIff | src/firmware/boot_capture.c:178-191 | in every run the guard fires exactly when a reset fell between sample and cursor load with a count above a ring, or between the previous sample and write-back with the new count still behind the cursor written back, within 32 bits |
| RingRuns.DiscardCounterIff | src/firmware/boot_capture.c:180-183 | the discard counter is non-zero if and only if the guard fired since the last reset |
| RingRuns.DrainsResynchronise | src/firmware/boot_capture.c:174-193 | cursor and count agree between drains unless the last write-back was of a drain that a reset fell into |
| RingRuns.GuardCanFire | src/firmware/boot_capture.c:134-191 | an eight-step run in which the guard fires with nothing new in the ring |
| RingRuns.StaleRingIsHandedOut | src/firmware/boot_capture.c:184-190 | it then hands out a whole ring although nothing was written since the reset |
| RingRuns.FullRingIsLost | src/firmware/boot_capture.c:158-172 | a run of 4096 writes and a drain that hands out none of them |
| CaptureRing.Ring.DmaWrite | src/firmware/boot_capture.c:166-169 | one transfer stores at the masked address, which then wraps inside the block |
| CaptureRing.Ring.DmaTotal | src/firmware/txn_capture.c:64-72 | the masked-address count is the modelled sample, taken of the true stream |
| CaptureRing.Ring.LoadCursor | src/firmware/boot_capture.c:179-183 | the cursor is loaded and moved past an overrun, whose size is counted |
| CaptureRing.Ring.TakeWord | src/firmware/boot_capture.c:184-185 | one turn reads the slot under the cursor, whatever it holds by then |
| CaptureRing.Ring.StoreCursor | src/firmware/boot_capture.c:191 | the write-back, stale if a reset fell into the drain |
| CaptureRing.Ring.Reset | src/firmware/boot_capture.c:134-143 | at any moment of a drain: re-arms at the base, zeroes cursor and counts, leaves the drain's locals |
| BusIntegrity.Analyser.Feed | src/firmware/bus_integrity.c:24-39 | one read updates masks, wrapped counters and checkpoint bits as the fold over the stream says |
| BusIntegrity.Analyser.MarkCheckpoints | src/firmware/bus_integrity.c:31-38 | the loop marks exactly the matching and the contradicted checkpoints |
| Words.PopCount16 | src/firmware/bus_integrity.c:51-53 | the shifting loop returns the number of set bits of any 16-bit word |
| BusIntegrity.SeenExactly | src/firmware/bus_integrity.c:24-30 | each running mask bit is set iff some read of the stream had that level |
| BusIntegrity.CountsExactly | src/firmware/bus_integrity.c:24-30 | the counters are the numbers of reads, of 00 reads and of FF reads of any stream below 2^32 |
| BusIntegrity.CheckpointsExactly | src/firmware/bus_integrity.c:31-38 | checked iff its address was read, failed iff some read of it differed |
| BusIntegrity.StuckDataExact | src/firmware/bus_integrity.c:41-49 | a data bit is reported iff the read gate is met and every read had it at that level |
| BusIntegrity.StuckAddrExact | src/firmware/bus_integrity.c:55-63 | the address verdict names exactly the constant bits, never more than 16 - min_distinct_bits |
| BusIntegrity.UndrivenExactIff | src/firmware/bus_integrity.c:65-70 | undriven means a strict majority of 00 and FF reads, if and only if fewer than 2^31 of them were counted |
| BusIntegrity.UndrivenExcludesBothStuck | src/firmware/bus_integrity.c:41-70 | undriven is never reported beside one bit stuck high and another stuck low |
| BusIntegrity.CheckpointsAreTheFirstInstructions | src/firmware/bus_integrity.c:4-15 | the table is DI, JP $02D7 and LD A,$82, the last at the address that the jump's two bytes give |
| BusIntegrity.CheckpointCoverage | src/firmware/bus_integrity.c:8-15 | all six checkpoints passed: no data bit is stuck low and only D1 can be stuck high |
| BusIntegrity.CheckpointsCannotClearD1 | src/firmware/bus_integrity.c:8-15 | a healthy machine that only reads the checkpoints is reported with D1 stuck high |
| BootDetect.Detector.Feed | src/firmware/boot_detect.c:32-85 | the branching feed computes the phases, flags and header bytes that the event means |
| BootDetect.Detector.RecomputeDerived | src/firmware/boot_detect.c:9-16 | the two loops find the highest set and the lowest unset phase |
| BootDetect.Detector.SetPhase | src/firmware/boot_detect.c:27-30 | adds the phase and restores the derived fields |
| BootDetect.PhasesOfExactly | src/firmware/boot_detect.c:32-85 | event by event, the phases set are those whose condition the event meets |
| BootDetect.DetectorExact | src/firmware/boot_detect.c:9-85 | after any trace a phase is set iff some event means it; derived fields follow |
| BootDetect.SideFlagsExact | src/firmware/boot_detect.c:45-81 | PPI and work-area flags are facts about the trace; the header counts as read iff at some point the newest bytes were 41 42 |
| BootDetect.ExactlyOneStall | src/firmware/boot_detect.c:123-128 | exactly one phase is shown stalled unless all nine were seen, and all before it are shown OK |
| BootDetect.StatusExact | src/firmware/boot_detect.c:123-128 | OK iff observed, stalled iff the lowest that was not, not reached iff neither it nor some phase below it was |
| BootCapture.DecodeSnapshot | src/firmware/boot_capture.c:4-31 | round trip: the decoders recover address, data and cycle kind from every snapshot they qualify and refuse the others |
| BootCapture.HeaderOnlyFromAlog | src/firmware/boot_capture.c:213-224 | only the cart-read log can touch the header bytes |
| BootCapture.StreamsMerge | src/firmware/boot_capture.c:195-226 | each stream alone determines its part of the detector's state |
| BootCapture.Confluence | src/firmware/boot_capture.c:195-226 | any two interleavings of the same three streams end in the same detector state |
| BootCapture.ScheduleDoesNotMatter | src/firmware/boot_capture.c:195-226 | however drains were scheduled, the detector ends as if fed each stream whole, one after the other |
| CaptureDrain.StepKeepsCapInv | src/firmware/boot_capture.c:117-226 | whatever the two cores and the DMA do, the detector is the fold of its words since its reset; since the capture reset each stream reached it whole and in order, and what came from the log is the beginning of what the log holds unless it was re-armed |
| CaptureDrain.DetectorAfterRun | src/firmware/boot_capture.c:195-226 | after every run, with resets anywhere, the detector ends as if fed each stream whole, one after the other; if it was reset later than the capture, each stream from where it then was |
| CaptureDrain.CaptureIsExact | src/firmware/boot_capture.c:162-226 | with the last capture reset outside a drain and both rings in time, these are the streams as the DMA captured them, each ring up to its last sample |
| CaptureDrain.LogRepeats | src/firmware/boot_capture.c:213-224 | from any moment to any later one, unless the log is re-armed, the log words handed over since the last capture reset are beginnings of the same words |
| CaptureDrain.Capture.ReArm | src/firmware/alog.c:20-53 | the channel starts over at the first cell, at any moment of a drain; the cells and the reader's cursor stay |
| CaptureDrain.Capture.LogWrite | src/firmware/alog.c:20-31 | one transfer stores at the next cell; after 250 of them the log takes nothing more |
| CaptureDrain.Capture.TakeRing | src/firmware/boot_capture.c:184-190 | one turn decodes the word under the cursor and feeds it |
| CaptureDrain.Capture.DrainLog | src/firmware/boot_capture.c:213-224 | the log loop takes its bound once, then hands over cell by cell, while the log may grow, be re-armed or be rewound |
| CaptureDrain.Capture.DrainRing | src/firmware/boot_capture.c:174-193 | one ring's drain is exactly sample, load, k decoded takes, write-back, interleaved with whatever happens meanwhile |
| CaptureDrain.Capture.Drain | src/firmware/boot_capture.c:195-226 | memory ring, I/O ring and log in turn, from any state between drains, with writes, stops, re-arming and resets at any moment |
| CaptureDrain.Capture.Reset | src/firmware/boot_capture.c:117-145 | at any moment: rings and log cursor start over, the detector keeps what it saw |
| TxnCapture.StepKeepsTxnInv | src/firmware/txn_capture.c:46-91 | the analyser is the fold of its reads, which since the ring's reset are the words handed out |
| TxnCapture.Reader.TakeRead | src/firmware/txn_capture.c:82-88 | one turn feeds the word under the cursor to the analyser |
| TxnCapture.Reader.Drain | src/firmware/txn_capture.c:74-91 | the drain is exactly sample, load, n feeding takes, write-back, interleaved with whatever happens meanwhile |
| BootCapture.PhaseIffWord | src/firmware/boot_capture.c:195-226 | a phase is set iff some drained word decodes to an event that means it |
| CaptureRuns.StreamAfterRun | src/firmware/boot_capture.c:99-156 | after every run each boot ring's stream is exactly the words of its write steps since the last effective reset at which the channel ran; it runs iff the latest of set-up, stop and effective reset is not a stop |
| CaptureRuns.ReadStreamAfterRun | src/firmware/txn_capture.c:38-62 | the same for the read ring |
| CaptureRuns.LogAfterRun | src/firmware/alog.c:20-53 | after every run the log holds the first 250 words stored since it was last armed |
| BusCycles.WordIsACycle | src/firmware/boot_capture.c:4-31 | every captured word stands for exactly one bus cycle |
| BusCycles.CycleIsAWord | src/firmware/boot_capture.c:4-31 | and every cycle for one word |
| BusCycles.ReadOfCycle | src/firmware/txn_capture.c:82-88 | what a read word hands to the analyser is the address and the data on the bus |
| BusCycles.WordMeans | src/firmware/boot_capture.c:195-226 | by the stream that a word is from, it implies a phase iff its bus levels mean it: /MREQ with /M1 for a fetch in the memory ring, /IORQ with /WR for a port write in the I/O ring, $4000 or $4001 in the log |
| BusCycles.PhaseIffCycle | src/firmware/boot_capture.c:195-226 | a phase is set after any merged stream iff some word of it is such a cycle |
| BusCycles.SideFlagsIffCycle | src/firmware/boot_detect.c:45-81 | the two side flags, in bus levels |
| BusCycles.DecodeOfLog | src/firmware/boot_capture.c:213-224 | a log word is an authoritative memory read of its address and data iff it is of the header |
| BusCycles.HeaderIsNewest | src/firmware/boot_detect.c:49-61 | the header bytes are the newest that the log showed; read iff at some point they were 41 42 |
| DiagRound.Round.Tick | src/firmware/boot_diag.c:211-266 | one tick takes exactly the modelled transition of the whole system: claims, ring resets and stops included; core 1's flag is up iff the phase is CAPTURING |
| DiagRound.TickMovesCore | src/firmware/boot_diag.c:211-266 | whatever the drains do, phase, pass, request and deadline move as the bare state machine does |
| DiagRound.Round.EndPass | src/firmware/boot_diag.c:248-264 | a pass records the probe's snapshot and the read count, adds its classification to the flags and freezes exactly on the third pass or when all phases were seen |
| DiagRound.Round.TestActive | src/firmware/main.c:33-37 | core 1 enters a drain exactly while the window is open |
| DiagRound.Round.CommandReset | src/firmware/cmd_dispatch.c:77-78 | the RESET command re-arms the log, resets the detector and resets the capture, whatever the round does; each of the three is a step of its own in the runs |
| BootDiag.InAllFlags | src/firmware/boot_diag.c:256 | an anomaly is in the accumulated flags iff some pass classified it |
| BootDiag.FlagIffShown | src/firmware/boot_diag.c:7-19 | flag by flag: set iff at the end of some pass the probe showed its cause: no clock; a clock outside 3 to 4 MHz; /RESET held; a clock but no read so far; /WAIT low |
| BootDiag.FrozenReadVerdicts | src/firmware/boot_diag.c:192-209 | read count, stuck masks, undriven and checkpoints of the result are facts about all reads of all passes |
| BootDiag.FrozenPhasesAndAnomalies | src/firmware/boot_diag.c:192-209 | phases are those that some drained word means; an anomaly is set iff the end of some pass shows its cause; the derived fields and the pass count follow |
| BootDiag.ReachedExact | src/firmware/boot_diag.c:188-190 | the signed deadline test is right exactly for clocks less than 2^31 ms past the deadline |
| BootDiag.TickOnTrack | src/firmware/boot_diag.c:211-266 | a running round is neither early nor late after any tick |
| BootDiag.RoundReachesDone | src/firmware/boot_diag.c:211-266 | with ticks at most g ms apart DONE is reached within 3*(8060+3g) ms, wherever the clock wraps |
| BootDiag.RoundOutcome | src/firmware/boot_diag.c:211-266 | 1 to 3 passes, fewer than 3 only with all nine phases seen, none cut short, start requests ignored meanwhile |
| RoundClock.RoundReachesDone | src/firmware/boot_diag.c:183-266 | the same bound in every run of the whole round, with drains, DMA writes and RESET commands between the ticks |
| RoundClock.RoundOutcome | src/firmware/boot_diag.c:183-266 | the frozen result counts 1 to 3 passes, fewer than 3 only with all nine phases in it, and the round took 8060 to 8060+3g ms per pass |
| RoundRuns.StepKeepsInv | src/firmware/boot_diag.c:183-266 | ticks, start requests, drains of three rings and the log, DMA writes and the three parts of the RESET command, in any order, keep the round's invariant |
| RoundRuns.FrozenAtDone | src/firmware/boot_diag.c:192-209 | in every run, also of a round that RESET commands fell into, the tick that freezes a result freezes the specification over the reads of all passes and the words since the detector's last reset |
| RoundRuns.RoundResult | src/firmware/boot_diag.c:183-266 | in every run a round that no RESET fell into freezes the specification over all words and reads of all its passes |
| RoundRuns.LosslessRound | src/firmware/boot_diag.c:183-266 | with every gap below a ring and every read on time, that is the specification over what each pass's last samples found: each ring up to its last sample, and the beginning of what the log held; what the DMA stored later, `stream[Sum(gaps)..]`, is lost with the next pass's reset |
| RoundRuns.RunKeepsEnds | src/firmware/boot_diag.c:248-256 | in every run the recorded end of each finished pass counts the reads of the round handed over by then |
| RoundBus.PassesCaptureWindows | src/firmware/boot_diag.c:230-256 | each pass of an undisturbed round captures exactly the transfers offered while its window was open, and ends with the probe's snapshot of that moment |
| RoundBus.LogIsOffered | src/firmware/alog.c:20-53 | in every run the log holds the first 250 transfers offered since it was last armed |
| RoundBus.RoundOnTheBus | src/firmware/boot_diag.c:183-266 | with rings in time the result is the specification over address and data of each read cycle and over the words of each window up to its last sample |
| RoundBus.PhasesOnTheBus | src/firmware/boot_diag.c:183-266 | a phase is in that result iff some window shows a cycle that means it in the stream where it counts; so with the side flags |
| RoundBus.AnomaliesOnTheBus | src/firmware/boot_diag.c:183-266 | an anomaly is in the result iff some pass's snapshot and the reads handed over by then show its cause |
| RoundBus.FrozenOnTheBus | src/firmware/boot_diag.c:192-209 | phases and side flags of any frozen result, in bus levels of the drained words |
| RoundStop.RoundStopsWhenComplete | src/firmware/boot_diag.c:251-264 | in every run an undisturbed round stops after the first pass by which cycles of all nine phases were handed over, and at the latest after the third |
| RoundRuns.LogWordsComeAgain | src/firmware/boot_capture.c:143 | for every run: of any two passes with no re-arming in between, the log words of one are the first log words of the other |
| RoundRuns.LogOfPasses | src/firmware/msx_runtime.c:127-131 | every pass of an undisturbed round finds in the log what was left over from before the round, then what the pass before it found |
| LogRefeed.ComesAgainInTheNextPass | src/firmware/boot_diag.c:230-236 | a run from start-up in which one log word is handed over in all three passes |
| LogRefeed.ComesAgainInTheNextRound | src/firmware/boot_diag.c:214-227 | it goes on with a round into which the DMA stores nothing, and which is handed the same word in each pass |
| LogRefeed.OldPhaseIsCartScan | src/firmware/boot_capture.c:213-224 | in every run, a phase of an undisturbed round's result that no word captured in the round means is CART_SCAN, and a header read was left in the log |
| LogRefeed.OldPhaseIff | src/firmware/boot_diag.c:214-227 | at the start of any round of any run: some continuation puts such a phase into the result if and only if the log then holds a read of $4000 or $4001 |
| LogRefeed.FullLogHearsNothing | src/firmware/alog.c:20-31 | a log that is full when the round begins shows every pass only the old words |
| Buttons.Panel.constructor | src/firmware/buttons.c:53-86 | the state after initialisation, SELECT un-armed |
| Buttons.Panel.FindBtn | src/firmware/buttons.c:105-111 | the first button with the event, -1 if none |
| Buttons.Panel.ScanOne | src/firmware/buttons.c:125-159 | one button's debounce, arming and registration |
| Buttons.Panel.ComboPass | src/firmware/buttons.c:161-189 | the combo pass |
| Buttons.Panel.Poll | src/firmware/buttons.c:121-214 | the four passes with their early returns compute the poll function |
| ButtonTrace.RunExact | src/firmware/buttons.c:121-214 | every poll of every run emits what the debounced lines and their history say, and so does the check after it |
| ButtonExact.UpDownExact | src/firmware/buttons.c:125-199 | a poll of a LOW run emits iff it is the first 100 ms or more after the debounced press and no poll up to it saw both pressed |
| ButtonExact.UpDownOncePerRun | src/firmware/buttons.c:125-199 | a maximal LOW run emits one event if its short falls due within it, otherwise none |
| ButtonExact.EarlyReleaseEmitsNothing | src/firmware/buttons.c:15-17 | every LOW run of UP or DOWN shorter than 100 ms emits nothing |
| ButtonExact.EarlyReleaseDropsTheShort | src/firmware/buttons.c:15-17 | a run with a debounced press that is released early and never gives its short |
| ButtonExact.EmittedIffShortFires | src/firmware/buttons.c:161-199 | a poll that sees both pressed emits neither UP nor DOWN |
| ButtonExact.SelectExact | src/firmware/buttons.c:201-211 | a poll of a LOW run emits SELECT iff the line was armed before and the poll is the first free one 200 ms or more after the debounced press |
| ButtonExact.SelectNeedsHold | src/firmware/buttons.c:201-211 | every SELECT ends a continuous LOW of at least 220 ms that began after a settled HIGH |
| ButtonExact.SelectsFarApart | src/firmware/buttons.c:201-211 | two SELECT events are at least 220 ms apart, and more when polls are at different times |
| ButtonExact.ComboChecksCount | src/firmware/main.c:152-163 | the number of true checks is the number of maximal both-pressed runs that last the hold time |
| ButtonPresses.ComboCount | src/firmware/buttons.c:164-189 | firings and long common presses are equally many after every poll |
| ButtonSelect.SelectOncePerPress | src/firmware/buttons.c:201-211 | with every combo that is off or names SELECT not exactly once, no press of SELECT emits twice in any run |
| ButtonSelect.SelectFiresTwice | src/firmware/buttons.c:146-159 | with every other combo the same long press gives a deferred short and a hold |
| ButtonSelect.SelectTwiceIff | src/firmware/buttons.c:121-214 | a press can give two events if and only if the combo is on and exactly one of its buttons is SELECT |
| AdcRails.Rails.Sample | src/firmware/adc_rails.c:68-73 | round robin: each rail's average is the fold of every third sample |
| AdcRails.NoOverflow | src/firmware/adc_rails.c:52-57 | 16-bit samples keep the average 16-bit and the 32-bit product exact |
| AdcRails.StaysInBand | src/firmware/adc_rails.c:68-73 | samples in [lo, hi] keep an average of [lo-63, hi] there |
| AdcRails.Approaches | src/firmware/adc_rails.c:68-73 | a constant input brings the average nearer with every sample until it is at its limit |
| AdcRails.Converges | src/firmware/adc_rails.c:68-73 | the limit is reached and kept; it is the input itself iff the average did not start below it |
| UsbSerial.LineRing.WriteLine | src/firmware/usb_serial.c:72-81 | enqueues the line cut to fit; a full ring drops only the new line |
| UsbSerial.LineRing.GetCmd | src/firmware/usb_serial.c:92-102 | dequeues the oldest line cut to the caller's buffer, or reports an empty ring |
| UsbSerial.LineRing.Push | src/firmware/usb_serial.c:150-158 | the ring refines a queue of capacity N-1 |
| UsbSerial.OfferAllTakesPrefix | src/firmware/usb_serial.c:72-81 | whatever is offered, the queue takes in order until full and keeps its old lines |
| UsbSerial.Input.Byte | src/firmware/usb_serial.c:147-164 | one byte keeps the accumulator equal to the unfinished line of the whole stream |
| UsbSerial.Input.Receive | src/firmware/usb_serial.c:142-165 | however bytes are spread over calls, the lines offered are those of the whole stream |
| UsbSerial.OneMoreByte | src/firmware/usb_serial.c:147-164 | how one byte changes the lines and the rest of any stream |
| UsbSerial.LinesAreClean | src/firmware/usb_serial.c:142-165 | every line has 1 to 63 bytes and no CR or LF |
| MemTest.PatternBytes | src/rom/main.asm:90-122 | the two patterns are $AA and $55 |
| MemTest.PatternsCatchAll | src/rom/main.asm:89-147 | a cell reads both patterns back right iff none of its bits is stuck |
| MemTest.RightMeans | src/rom/main.asm:89-147 | the right verdict is unique: pass iff no bit of the range is stuck |
| MemTest.Ram.Fill | src/rom/main.asm:89-99 | the counted loop writes exactly the range and ends |
| MemTest.Ram.Verify | src/rom/main.asm:101-112 | finds the lowest address that does not read back |
| MemTest.Ram.Test | src/rom/main.asm:89-147 | for every assignment of stuck bits the verdict over $C000-$FFFF is right |
| MemTest.Vram.SetAddress | src/rom/main.asm:589-604 | the address counter becomes HL modulo 16 KB |
| MemTest.Vram.Fill | src/rom/main.asm:209-219 | writes exactly $1000-$3FFF through the auto-incrementing counter |
| MemTest.Vram.Verify | src/rom/main.asm:221-235 | HL names the lowest failing address although only the counter addresses memory |
| MemTest.Vram.Test | src/rom/main.asm:209-271 | the verdict over $1000-$3FFF is right and $0000-$0FFF is never written |
| TextBuffer.Append | src/firmware/boot_diag.c:37-45 | for every buffer and offset, what is held is the text so far plus the new text, cut to fit and NUL-terminated |
| Causes.AppendCauseBits | src/firmware/boot_diag.c:59-65 | appends one line naming exactly the set bits, or nothing for an empty mask |
| Causes.PossibleCauses | src/firmware/boot_diag.c:67-98 | for every result and buffer, the output is the prefix of the unbounded list |
| Causes.OneLinePerFinding | src/firmware/boot_diag.c:67-89 | one line for each anomaly, each kind of stuck line, an undriven bus and failed checkpoints |
| Causes.CausesReadBack | src/firmware/boot_diag.c:67-98 | split at newlines, the full list is those lines, or the fallback line iff there are none |
| TextReading.DecReadsBack | src/firmware/boot_diag.c:37-45 | `%u` writes decimal digits that denote the number |
| TextReading.HexOfMask | src/firmware/boot_diag.c:85-86 | `%02X` writes two digits whose value has exactly the mask's bits |
| CauseReading.AnomaliesAreNamed | src/firmware/boot_diag.c:70-79 | each of the five texts stands in the list iff its flag is set |
| CauseReading.StuckHighIsNamed | src/firmware/boot_diag.c:80 | a line about stuck-high data bits stands there iff there is one, and names bit k iff it is stuck high |
| CauseReading.StuckLowIsNamed | src/firmware/boot_diag.c:81 | stuck low |
| CauseReading.StuckAddressIsNamed | src/firmware/boot_diag.c:82 | address lines |
| CauseReading.UndrivenIsNamed | src/firmware/boot_diag.c:83-84 | there iff the bus was undriven |
| CauseReading.MismatchIsNamed | src/firmware/boot_diag.c:85-86 | there iff a checkpoint failed; its hex byte is the mask |
| CauseReading.CompleteIsNamed | src/firmware/boot_diag.c:87-90 | the list is the line of a complete boot iff nothing was found and all nine phases were seen |
| CauseReading.StalledIsNamed | src/firmware/boot_diag.c:91-95 | with a phase missing, the list says before which one the boot stalled iff nothing was found |
| Report.AppendBullets | src/firmware/boot_diag.c:107-116 | the pointer walk over the cause buffer writes one bullet per line, also for a cut last line |
| Report.AppendBits | src/firmware/boot_diag.c:48-57 | appends one line naming the stuck bits |
| Report.ReportIsCompleteIff | src/firmware/boot_diag.c:105-117 | the report bullets every cause if and only if the full list has at most 400 chars |
| Report.LongListIsCut | src/firmware/boot_diag.c:105-117 | a family of results whose findings do not all reach the report |
| Report.ARoundCanOverflow | src/firmware/boot_diag.c:105-117 | the result of a round with a dead clock and a floating bus is of that family |
| OverflowRun.ARoundOverflows | src/firmware/boot_diag.c:183-266 | from start-up, a run of one round that freezes exactly that result |
| Report.FormatReport | src/firmware/boot_diag.c:100-152 | for every result and buffer, the output is the prefix of the unbounded report |
| ReportLines.ReportReadsBack | src/firmware/boot_diag.c:100-152 | split at its newlines, that report is its lines, whatever the cause buffer cut |
| ReportReading.CausesAreShown | src/firmware/boot_diag.c:105-117 | the lines under its first heading are those of the full cause list, one bullet each and in order, iff that list has at most 400 chars |
| ReportReading.OkIsShown | src/firmware/boot_diag.c:121-123 | "- OK" stands under the bus heading iff none of the five read findings holds |
| ReportReading.UndrivenIsShown | src/firmware/boot_diag.c:128 | the line about an undriven bus stands there iff it was |
| ReportReading.StuckHighIsShown | src/firmware/boot_diag.c:125 | a line of stuck-high bits stands there iff there is one, and names just those bits |
| ReportReading.StuckLowIsShown | src/firmware/boot_diag.c:126 | stuck low |
| ReportReading.StuckAddressIsShown | src/firmware/boot_diag.c:127 | address lines |
| ReportReading.FailedIsShown | src/firmware/boot_diag.c:129-130 | failed checkpoints: there iff one failed, its hex byte is the mask |
| ReportReading.AnomaliesAreShown | src/firmware/boot_diag.c:133-139 | each anomaly's line stands under its heading iff the flag is set |
| ReportReading.PhasesAreShown | src/firmware/boot_diag.c:145-148 | line p under the last heading names phase p: OK iff seen, STALLED iff the lowest that was not, else "--" |
| ReportReading.SideFlagsAreShown | src/firmware/boot_diag.c:149-150 | the last line gives the two side flags |
| ReportReading.NextIsShown | src/firmware/boot_diag.c:141-144 | just one line names the next phase, the lowest that was not seen |
| ReportReading.ReadsAreShown | src/firmware/boot_diag.c:120 | just one line heads the bus section, and its digits are the read count |
| ReportReading.PassesAreShown | src/firmware/boot_diag.c:103-104 | the digits of the first line are the pass count |

## Left out

- GPIO functions, pulls, clocks, watchdog, I2C, PWM and USB set-up: calls into the SDK without logic of their own. PIO instructions, FIFOs and DMA transfers are abstract steps.
- OLED pages, fonts and navigation: user interface.
- `buttons_held`: uses the press time of an un-armed button and has no caller.
- `msx_autoreset.c`, `bus_probe.c` and the power-fault counter of `main.c`: a few branches each. `BootDiag.Probe` takes what a round reads of a bus_probe snapshot as a parameter.
- Rail voltages and thresholds: floating point with branch-level claims.
- `alog.c` printers, `cmd_dispatch.c`, the keyword table and `usb_serial_parse_cmd`: I/O plumbing.
- `cart_addr_log`: a third PIO program that only records; which words it records is an input here.
- `cart_serve_reset_pipeline` called by the RESET command beside a round (`cmd_dispatch.c:81`): with `cart_serve` never initialised it stops and restarts PIO1 SM0, which `txn_capture` uses, and re-arms DMA channel 0; what that does to a round's reads is not modelled.
- `alog_reset` before the first round has claimed the log's DMA channel: it would act on channel -1; here it only sets the count to 0.
- `boot_detect_format_report`: the same truncating appends as the modelled reports, over fixed strings.
- The send loop of `usb_serial_task`: dequeues as `GetCmd` does and hands the line to the USB stack.
- Drain cadence counters of `boot_capture.c`: bookkeeping on wall-clock time.
- Drains before `boot_capture_init` and `txn_capture_init`: none can come, since core 1 drains only in a round.
- RingRuns.GuardFiresIff: the sample and the reset are single steps; a reset that falls between the statements of `bd_dma_total`, or a sample between those of the reset, is not modelled.
- RoundRuns.RoundResult: for rounds without a RESET command and without a re-armed log; of the others `RoundRuns.FrozenAtDone` says that the result is the specification over the words since the detector's last reset.
- RoundRuns.LosslessRound: says nothing about when drains come; a log drain that never runs in a pass hands over nothing of it.
- CartServeProofs.RomRefinement: says nothing about how many nanoseconds a step takes; that the byte arrives before /RD rises is the timing assumption, and `CartServeProofs.DeviceStepsOfOneRead` bounds the steps.
- CartServeProofs.DriveSafety: holds at instruction boundaries; inside the two atomic calls the level shifter and the pins change one after the other.
- UsbSerial.LineRing.Push: a slot is the string before its terminator; bytes behind the terminator are not modelled, and the spin lock makes each call one step.
- BootDiag.FrozenReadVerdicts: for fewer than 2^31 reads; from there on the doubling of the undriven test wraps (`BusIntegrity.UndrivenExactIff`).
- MemTest.Vram.Test: the VDP is an address counter that increments on every access; its read-ahead buffer is not modelled.
- Report.FormatReport: the C `int` offset is unbounded.
