# webscope decoding core, modelled in Dafny

webscope shows waveforms that come from streams: simulated sources,
serial or network devices, and decoders that read other waveforms.
This project models its core:

- the frame-decoder engine (`src/streams/decoder/FrameDecoder.ts`):
  - `checkTrigger`;
  - the time cursor;
  - `waitTime` and `waitTrigger`, with the suspension records that
    stand in for their pending Promises;
  - `startFrame`, `endFrame`, `flush`, `reset` and `decode`;
- the UART and I2C decoders built on that engine;
- the stream base class and the stream registry (`src/core/Stream.ts`);
- the session's list of waveform instances (`src/core/Session.ts`);
- `objectMap` (`src/core/Util.ts`);
- the simulated stream that turns a text of zeros and ones into a binary
  waveform (`src/streams/simulated/BinaryTextStream.ts`).

Modules, one per file:

- `Wrappers`: `Option` and `Outcome` (an `Error` returned or thrown).
- `Util`: JavaScript objects as ordered entry lists, and `objectMap`.
- `Waveforms`: waveform and frame values.
- `Triggers`: `checkTrigger`, trigger sets and the flag table of `waitTrigger`.
- `Scheduler`: the queue of `waitTrigger`, given as pure functions. `Scan` is
  its `while (true)` loop.
- `SchedulerFacts`: what the scan does, as lemmas:
  - merge order;
  - flags are overwritten, not accumulated;
  - it stops at the first satisfied condition.
- `FrameDecoder`: the class `FrameDecoderStream`. Each of its methods is proved
  against those functions.
- `DecoderSteps`: the steps the decoders share, such as an `await`, or opening
  and sealing a frame on `"bytes"`.
- `Bits`: the most-significant-first fold of bits into a byte, its inverse,
  and counting set bits.
- `Uart` and `I2C`: each decoder's `frameDecode`. It is imperative, with `fsm`
  kept as a local variable. Each is proved against a pure function `RunSpec`
  of its state machine (`Uart.RunSpec`, `I2C.RunSpec`).
- `Streams`, `Sessions` and `BinaryText`: the rest of the core.

`FrameDecoderStream.Valid` is the engine's invariant, which every method of
the class keeps. It holds that:

- output names are distinct, with one buffer each;
- open frames are on declared outputs and start no later than the cursor;
- sealed frames end no later than the cursor;
- the cursor is never negative;
- a stored `waitTime` is for a time at which its input has no sample;
- a stored `waitTrigger` keeps a flag table shaped like its trigger set.

Times and sample rates are exact reals. A queued sample carries its
integer index, so the `Math.round` of `FrameDecoder.ts:200` is the
identity. The `PriorityQueue` that `FrameDecoder.ts` imports is not part
of this model. Only its comparator (lines 154-160) is: the model polls the
first item, in queue order, that no other item comes before.

## Model

| member | source | states |
|---|---|---|
| Util.ObjectMap | src/core/Util.ts:1-4 | the result has exactly the input's keys, in the input's order |
| Util.ObjectMapAt | src/core/Util.ts:3 | entry `i` of the result is `(k, u(k, v))` for entry `(k, v)` of the input |
| Util.ObjectMapLookup | src/core/Util.ts:3 | looking up key `k` in the result gives `u(k, obj[k])`; a key missing from the input is missing from the result |
| Util.Lookup | src/core/Util.ts:3 | `obj[k]` is defined exactly when some entry has key `k` |
| Triggers.AnalogLevels | src/streams/decoder/FrameDecoder.ts:24-29 | analog "high" holds iff value >= thresh, "low" iff value <= thresh; at the threshold both hold |
| Triggers.CheckTrigger | src/streams/decoder/FrameDecoder.ts:18-41 | true only for a trigger of the waveform's own family (analog or binary); a rising, falling or edge trigger only when the sample differs from the previous one |
| Triggers.BinaryLevelsIgnorePrevious | src/streams/decoder/FrameDecoder.ts:33-34 | binary "high"/"low" depend only on the current sample; on a bit exactly one holds |
| Triggers.BinaryEdges | src/streams/decoder/FrameDecoder.ts:35-37 | "rising" iff 0 then 1, "falling" iff 1 then 0, "edge" iff either |
| Triggers.MismatchedTriggerNeverFires | src/streams/decoder/FrameDecoder.ts:24-40 | a trigger of the wrong family for the waveform type falls through every case and gives false |
| Triggers.FreshTracker | src/streams/decoder/FrameDecoder.ts:193-195 | a fresh flag table has one false flag per (condition, channel), in the trigger set's order |
| Triggers.UpdateCondition | src/streams/decoder/FrameDecoder.ts:221-228 | only the flag of the popped channel changes; it becomes this sample's check |
| Triggers.UpdateTracker | src/streams/decoder/FrameDecoder.ts:220-229 | every condition naming the channel has that flag overwritten with this sample's check; every other flag is kept |
| Triggers.UpdateTrackerAt | src/streams/decoder/FrameDecoder.ts:220-229 | condition `i` of the updated table is condition `i` updated on its own |
| Triggers.UpdateConditionAbsent | src/streams/decoder/FrameDecoder.ts:221 | a condition that does not name the channel keeps its flags |
| Triggers.FirstSatisfied | src/streams/decoder/FrameDecoder.ts:231-235 | None iff no condition has all flags true; otherwise it names a condition whose flags are all true |
| Scheduler.PickMin | src/streams/decoder/FrameDecoder.ts:152-161 | the polled item: nothing queued comes before it, and it comes before every item ahead of it in the queue |
| Scheduler.Bump | src/streams/decoder/FrameDecoder.ts:185 | the item moves one sample period on: same channel, strictly later, after the old item in queue order |
| Scheduler.NotBeforeTransitive | src/streams/decoder/FrameDecoder.ts:154-160 | "not before" under the comparator is transitive |
| Scheduler.InitialQueue | src/streams/decoder/FrameDecoder.ts:168-177 | every queued sample is at or after the cursor |
| Scheduler.InitialQueueChannels | src/streams/decoder/FrameDecoder.ts:168-177 | exactly the channels named by some condition are queued, each with its own waveform |
| Scheduler.CeilIndex | src/streams/decoder/FrameDecoder.ts:175 | `Math.ceil(t * rate)`: the first sample index whose time is not before `t` |
| Scheduler.NoEdgeAtFirstSample | src/streams/decoder/FrameDecoder.ts:218 | at a channel's first sample the previous value is that sample itself, so no rising, falling or edge trigger holds there |
| Scheduler.SkipAt | src/streams/decoder/FrameDecoder.ts:182-188 | the skip loop keeps the queue's size and its items valid |
| Scheduler.SkipStep | src/streams/decoder/FrameDecoder.ts:183-186 | one turn of the skip loop leaves one item fewer at the cursor |
| Scheduler.RemainingAfterPop | src/streams/decoder/FrameDecoder.ts:237-239 | re-queueing a sample that had data leaves one sample less to scan |
| Scheduler.Scan | src/streams/decoder/FrameDecoder.ts:197-240 | unless it crashes, the scan returns a flag table shaped like the trigger set |
| Scheduler.Trace | src/streams/decoder/FrameDecoder.ts:197-240 | the items the loop polls, in order, are valid queue items |
| SchedulerFacts.PopQueue | src/streams/decoder/FrameDecoder.ts:199-239 | a turn that goes on keeps the queue's size and re-adds the popped channel at the end, with strictly less left to scan |
| SchedulerFacts.InitialQueueSnoc | src/streams/decoder/FrameDecoder.ts:168-177 | one more input channel adds at most its own item, at the end of the queue |
| SchedulerFacts.ScanStep | src/streams/decoder/FrameDecoder.ts:237-239 | after such a turn the scan continues from the new queue and table |
| SchedulerFacts.TraceStep | src/streams/decoder/FrameDecoder.ts:199-239 | the polled samples are the popped one, then those of the continued scan |
| SchedulerFacts.ScanCrashesIffEmpty | src/streams/decoder/FrameDecoder.ts:199-211 | the loop reads an undefined item exactly when the queue starts empty |
| SchedulerFacts.SkipAtAfter | src/streams/decoder/FrameDecoder.ts:179-188 | after the skip loop every queued sample lies strictly after the cursor |
| SchedulerFacts.ScanNotEarlier | src/streams/decoder/FrameDecoder.ts:207 | the cursor the scan leaves is never before a bound that every queued sample respects, and strictly after it if every queued sample is strictly after |
| SchedulerFacts.PoppedIsLeast | src/streams/decoder/FrameDecoder.ts:199 | after a pop nothing left queued comes before the popped item |
| SchedulerFacts.TraceBounded | src/streams/decoder/FrameDecoder.ts:197-240 | when nothing queued comes before `b`, nothing the scan polls does |
| SchedulerFacts.ConsInMergeOrder | src/streams/decoder/FrameDecoder.ts:199 | an item that no later item comes before keeps merge order at the front |
| SchedulerFacts.TraceInMergeOrder | src/streams/decoder/FrameDecoder.ts:149-161 | samples are processed by non-decreasing time, and at equal times by non-increasing sample rate |
| SchedulerFacts.ReplayFlag | src/streams/decoder/FrameDecoder.ts:220-229 | after a run of samples, each flag is the check of the LAST sample of its channel, or its starting value if that channel had none |
| SchedulerFacts.LastOf | src/streams/decoder/FrameDecoder.ts:220-229 | the last polled sample of a channel is one of the polled samples, on that channel; None means the channel had no sample |
| SchedulerFacts.ReplayCons | src/streams/decoder/FrameDecoder.ts:220-229 | replaying a first sample and then the rest |
| SchedulerFacts.ScanEndsAtTrace | src/streams/decoder/FrameDecoder.ts:207-215 | the scan ends at the time of the last sample it polls; it crashes only on an empty queue |
| SchedulerFacts.ScanFlagsAreReplay | src/streams/decoder/FrameDecoder.ts:211-235 | the stored or returned flags are the replay of every sample read, and a fired condition is the first one satisfied in that table |
| SchedulerFacts.FlagsAtCons | src/streams/decoder/FrameDecoder.ts:218-239 | a sample read before the rest keeps the flags-are-replay relation |
| SchedulerFacts.ScanStopsAtFirstSatisfied | src/streams/decoder/FrameDecoder.ts:231-235 | after every sample before the one that fires, no condition was satisfied |
| SchedulerFacts.TablesWithinTrace | src/streams/decoder/FrameDecoder.ts:218-239 | one sample with data is read per table built |
| SchedulerFacts.TableIsReplay | src/streams/decoder/FrameDecoder.ts:218-239 | the table after the `n`-th sample is the replay of the first `n + 1` samples |
| SchedulerFacts.FiredConditionWitnessed | src/streams/decoder/FrameDecoder.ts:193-235 | for a fresh call, every channel of the fired condition has a last sample read, and that sample satisfies the channel's trigger |
| SchedulerFacts.FlagWitness | src/streams/decoder/FrameDecoder.ts:220-229 | a flag true after replaying from an all-false table was set by the last sample of its channel |
| FrameDecoder.InputAtTimeAt | src/streams/decoder/FrameDecoder.ts:112-131 | channel by channel, the samples `waitTime` delivers are `data[Math.floor(t * sampleRate)]` |
| FrameDecoder.IndexAt | src/streams/decoder/FrameDecoder.ts:112-114 | `Math.floor(t * sampleRate)`: the index of the sample period that contains `t` |
| FrameDecoder.LineAtRead | src/streams/decoder/FrameDecoder.ts:129-131 | reading channel `ch` of the delivered samples gives that channel's sample at the cursor |
| FrameDecoder.OutOfRangeLater | src/streams/decoder/FrameDecoder.ts:118-124 | a time out of range of some buffer stays out of range later |
| FrameDecoder.FlushLog | src/streams/decoder/FrameDecoder.ts:312-318 | `flush` makes at most one call per output channel |
| FrameDecoder.FlushLogContents | src/streams/decoder/FrameDecoder.ts:313-317 | exactly the non-empty buffers are handed on, each whole, under its own channel |
| FrameDecoder.FlushLogNothing | src/streams/decoder/FrameDecoder.ts:313-317 | with every buffer empty nothing is handed on |
| FrameDecoder.StartQueue | src/streams/decoder/FrameDecoder.ts:163-188 | every starting queue item is at or after the cursor |
| FrameDecoder.StartTracker | src/streams/decoder/FrameDecoder.ts:193-195 | the starting table, passed in or all false, is shaped like the trigger set |
| FrameDecoder.TriggerWaitMovesForward | src/streams/decoder/FrameDecoder.ts:175-207 | a fresh call resolves or suspends strictly after the cursor; a resumed one never before it |
| FrameDecoder.TriggerWaitCrashes | src/streams/decoder/FrameDecoder.ts:168-211 | the call fails (undefined `poll()`) exactly when no input channel is named by a condition |
| FrameDecoder.NothingNamedNothingQueued | src/streams/decoder/FrameDecoder.ts:171 | no named channel, no queued item |
| FrameDecoder.ApplySample | src/streams/decoder/FrameDecoder.ts:218-229 | the loop over conditions computes the overwrite of the popped channel's flags |
| FrameDecoder.FindSatisfied | src/streams/decoder/FrameDecoder.ts:231-235 | the loop finds the first condition whose flags are all true |
| FrameDecoder.BuildQueue | src/streams/decoder/FrameDecoder.ts:168-177 | the loop builds the queue of named channels at their first sample not before the cursor |
| FrameDecoder.SkipCursor | src/streams/decoder/FrameDecoder.ts:182-188 | the loop moves every sample at the cursor one period on |
| FrameDecoder.StartScan | src/streams/decoder/FrameDecoder.ts:163-195 | the starting queue and flag table of a call |
| FrameDecoder.RunScan | src/streams/decoder/FrameDecoder.ts:197-240 | the `while (true)` loop computes the scan |
| FrameDecoder.FrameDecoderStream.constructor | src/streams/decoder/FrameDecoder.ts:82-85 | output buffers for the declared outputs, then the state `reset` leaves |
| FrameDecoder.FrameDecoderStream.Flush | src/streams/decoder/FrameDecoder.ts:312-318 | hands on the non-empty buffers in output order and does not clear them |
| FrameDecoder.FrameDecoderStream.Reset | src/streams/decoder/FrameDecoder.ts:323-340 | flushes, then no suspension, cursor 0, no open frame, no input, every buffer empty |
| FrameDecoder.FrameDecoderStream.ClearOutputs | src/streams/decoder/FrameDecoder.ts:338-339 | every output buffer emptied |
| FrameDecoder.FrameDecoderStream.StartFrame | src/streams/decoder/FrameDecoder.ts:248-253 | fails with "Frame already started" and changes nothing if a frame is open; otherwise opens one at the cursor |
| FrameDecoder.FrameDecoderStream.EndFrame | src/streams/decoder/FrameDecoder.ts:258-270 | without an open frame returns the error and changes nothing; otherwise appends exactly the sealed frame to that channel and clears the slot |
| FrameDecoder.FrameDecoderStream.WaitTime | src/streams/decoder/FrameDecoder.ts:103-132 | in range: cursor becomes `t + s` and the samples there are returned; out of range: cursor kept, flush, suspension on the absolute time `t + s` |
| FrameDecoder.FrameDecoderStream.WaitTrigger | src/streams/decoder/FrameDecoder.ts:139-243 | resolves, suspends (flush, flag table stored) or fails as the scan says, with the cursor at the scan's time |
| FrameDecoder.FrameDecoderStream.SuspendTrigger | src/streams/decoder/FrameDecoder.ts:212-215 | flushes and stores the trigger set with a copy of the flags |
| FrameDecoder.FrameDecoderStream.MoveCursor | src/streams/decoder/FrameDecoder.ts:207 | the cursor moves to the popped sample's time |
| FrameDecoder.FrameDecoderStream.ReplayTime | src/streams/decoder/FrameDecoder.ts:281-287 | clears the record and calls `waitTime` with the stored absolute time as a delay |
| FrameDecoder.FrameDecoderStream.ReplayTrigger | src/streams/decoder/FrameDecoder.ts:288-294 | clears the record and calls `waitTrigger` with the stored set and no flags, so the scan starts afresh from the cursor: it resolves at the scan's time with the record cleared, suspends with a new record and one flush, or crashes with the cursor kept |
| FrameDecoder.FrameDecoderStream.Decode | src/streams/decoder/FrameDecoder.ts:275-305 | replays a time suspension before a trigger one, keeping the old input; only with neither pending does it take the new input and start the body, from a reset state when asked to |
| FrameDecoder.Seal | src/streams/decoder/FrameDecoder.ts:262-268 | the sealed frame keeps its start, ends at the cursor, and takes the new label only when it is truthy |
| FrameDecoder.ZeroLabelDropped | src/streams/decoder/FrameDecoder.ts:262-265 | the label 0 or "" handed to `endFrame` is ignored |
| FrameDecoder.FlushLogSnoc | src/streams/decoder/FrameDecoder.ts:313-317 | one more channel in `flush`'s loop adds at most its own call |
| DecoderSteps.FreshScan | src/streams/decoder/FrameDecoder.ts:182-207 | a fresh wait never stops at or before the cursor |
| DecoderSteps.AwaitTrigger | src/streams/decoder/FrameDecoder.ts:139-243 | the body goes on only when the wait resolves, at the scan's time, with the condition that held and the trigger record kept; a suspend records the trigger set with the scan's flag table and flushes once, a throw keeps the record and hands on nothing |
| DecoderSteps.Open | src/streams/decoder/FrameDecoder.ts:248-253 | `startFrame("bytes", data)` succeeds exactly when no frame is open |
| DecoderSteps.Close | src/streams/decoder/FrameDecoder.ts:258-270 | `endFrame("bytes", data)` appends the sealed frame |
| DecoderSteps.EngineWaits | src/streams/decoder/FrameDecoder.ts:139-243 | the engine's waits answer as the scan does and move forward |
| DecoderSteps.AwaitWith | src/streams/decoder/FrameDecoder.ts:139-243 | an await, stated through the waits of the current input: the same outcome, cursor, trigger record and flush as `AwaitTrigger` |
| Bits.SampleBit | src/streams/decoder/serial/UART.ts:98 | a sample used as a bit operand: a binary sample is itself, `undefined` is 0 |
| Bits.FoldMsb | src/streams/decoder/serial/UART.ts:94-99 | the fold of `(b << 1) \| bit` is below `2^n` for `n` bits |
| Bits.ToBitsMsb | src/streams/decoder/serial/UART.ts:94-99 | `n` bits, most significant first |
| Bits.FoldThenSplit | src/streams/decoder/serial/UART.ts:94-99 | the folded byte's bits are the received bits |
| Bits.SplitThenFold | src/streams/decoder/serial/UART.ts:94-99 | folding the bits of a value below `2^n` gives it back |
| Bits.FirstBitIsMsb | src/streams/decoder/serial/UART.ts:94-98 | the first received bit is the top bit of the byte |
| Bits.ShiftInBit | src/streams/decoder/serial/UART.ts:98 | `(byte << 1) \| bit` is `2 * byte + bit` |
| Bits.BitOrDisjoint | src/streams/decoder/serial/I2C.ts:85 | or-ing a value into clear low bits adds it |
| Bits.ShiftOutLast | src/streams/decoder/serial/I2C.ts:88 | dropping the last folded bit is `>> 1` |
| Bits.FoldMsbBit | src/streams/decoder/serial/UART.ts:117-120 | bit `i` of the folded byte is the `i`-th received bit from the end |
| Bits.OnesOfFold | src/streams/decoder/serial/UART.ts:117-120 | the set bits among the low `n` bits are the ones among the last `n` received |
| Bits.OnesOfFoldAll | src/streams/decoder/serial/UART.ts:117-120 | as many set bits as ones received |
| Uart.BitTimes | src/streams/decoder/serial/UART.ts:71-72 | both delays are positive and two half bits make a full bit |
| Uart.NoParityCycle | src/streams/decoder/serial/UART.ts:78-140 | without parity the machine returns to WAIT_IDLE every five cases |
| Uart.StepsAdd | src/streams/decoder/serial/UART.ts:76-141 | `m + n` cases are `m` cases, then `n` |
| Uart.ParityStaysInCheck | src/streams/decoder/serial/UART.ts:106-127 | with a parity bit, CHECK_PARITY never leaves |
| Uart.BitStartIs | src/streams/decoder/serial/UART.ts:87-101 | bit `k` of a frame starts `k` full bits after the frame |
| Uart.BitCentreEnd | src/streams/decoder/serial/UART.ts:100-101 | half a bit after the middle of the last bit is the end of that bit |
| Uart.FrameBits | src/streams/decoder/serial/UART.ts:94-97 | bit `k` is the line in the middle of bit `k` |
| Uart.ParityCheck | src/streams/decoder/serial/UART.ts:116-121 | the loop gives OK iff the set low bits plus the parity bit are odd for ODD, even for EVEN |
| Uart.ParityOfReceivedBits | src/streams/decoder/serial/UART.ts:116-121 | on a received byte the check counts exactly the received ones |
| Uart.Sample | src/streams/decoder/serial/UART.ts:94 | goes on iff every channel has a sample `seconds` on, then moves the cursor there and keeps the time record; otherwise flushes once and records the time `seconds` after the cursor |
| Uart.Finish | src/streams/decoder/serial/UART.ts:101-102 | seals the open frame half a bit after the cursor |
| Uart.StartBit | src/streams/decoder/serial/UART.ts:86-88 | runs to its end iff the input has a sample one full bit on; then exactly the frame "START" over that bit is appended, otherwise nothing |
| Uart.ReadData | src/streams/decoder/serial/UART.ts:91-105 | runs to its end iff `ByteSpec` does; the byte is then the MSB-first fold of the mid-bit samples, below `2^dataBits`, and exactly its frame over `dataBits` full bits is appended; otherwise nothing |
| Uart.SampleByte | src/streams/decoder/serial/UART.ts:94-99 | samples at half a bit, then every full bit, folded MSB first, below `2^dataBits` |
| Uart.ShiftInBits | src/streams/decoder/serial/UART.ts:96-99 | the loop shifts in each further mid-bit sample |
| Uart.CheckParityBit | src/streams/decoder/serial/UART.ts:110-126 | runs to its end iff `ParitySpec` does; the verdict is then the check of the set data bits against the level in the middle of the parity bit, and exactly its frame is appended; otherwise nothing |
| Uart.ParityLabel | src/streams/decoder/serial/UART.ts:124 | the verdict label is never empty, so `endFrame` keeps it |
| Uart.AwaitStop | src/streams/decoder/serial/UART.ts:128-140 | the stop frame spans `stopBits` full bits, is labelled "START", and `lineHigh` tells whether every mid-bit sample was high |
| Uart.StopLevels | src/streams/decoder/serial/UART.ts:133-135 | the loop samples each further stop bit |
| Uart.AllHighMeans | src/streams/decoder/serial/UART.ts:132-135 | the line is 1 in the middle of each stop bit |
| Uart.FrameDecode | src/streams/decoder/serial/UART.ts:65-143 | with no frame of "bytes" open at the start: ends in the state `RunSpec` gives; if no case stopped short, exactly `RunSpec`'s frames were appended and the cursor is at its time; if one did, exactly those frames were appended, and either its wait threw (nothing handed on, both records as they were) or it suspended (one flush, and that wait set in exactly one record) |
| Uart.RunState | src/streams/decoder/serial/UART.ts:77-141 | one case of the `switch`: runs to its end iff `CaseSpec` does, and then appends its frames, moves the cursor and sets the byte as it says; otherwise appends nothing |
| Uart.NewUartDecoder | src/streams/decoder/serial/UART.ts:61-63 | the engine with the one output "bytes", reset |
| Uart.DecodeUart | src/streams/decoder/serial/UART.ts:65-143 | the engine's `decode`; decoding from the start, "bytes" then holds exactly the frames of `RunSpec` on the engine's waits. If no case stopped short, the cursor is at the run's time, only `reset`'s flush was handed on and no wait is recorded. If one did, either nothing more was handed on and no wait is recorded, or one more flush was and exactly one record is set |
| Uart.BitRate | src/streams/decoder/serial/UART.ts:71-72 | `TIME_FULL_BIT` is one period of the baud rate, `TIME_HALF_BIT` half of one |
| Uart.NextState | src/streams/decoder/serial/UART.ts:76-141 | the state after a case that ran to its end; the machine stays put only in CHECK_PARITY with a parity bit |
| Uart.ParityBitDecides | src/streams/decoder/serial/UART.ts:116-121 | exactly one value of the parity bit passes the check |
| Uart.CentreBeforeEnd | src/streams/decoder/serial/UART.ts:94-101 | the middle of every bit of a frame comes before the frame's end |
| Uart.MissedSample | src/streams/decoder/serial/UART.ts:94-101 | a wait into the middle of a bit that finds no sample means there is none at the end of the frame either |
| Uart.NextCentre | src/streams/decoder/serial/UART.ts:97 | a full bit after the middle of one bit is the middle of the next |
| Uart.ShiftInOne | src/streams/decoder/serial/UART.ts:97-98 | one data bit: the fold takes in the level in the middle of the next bit, or the input ends before the frame does |
| Uart.FoldNextBit | src/streams/decoder/serial/UART.ts:98 | shifting in the next mid-bit level gives the fold of one bit more |
| Uart.ByteBody | src/streams/decoder/serial/UART.ts:94-102 | with the frame open: runs to its end iff the input covers the data bits, and then appends the frame labelled with the fold |
| Uart.ReadParity | src/streams/decoder/serial/UART.ts:113-121 | the verdict is the check of the set low bits of the byte and the level in the middle of the parity bit |
| Uart.ParityBody | src/streams/decoder/serial/UART.ts:113-124 | with the frame open: runs to its end iff the input covers the parity bit, and then appends the verdict frame |
| Uart.IdleSpec | src/streams/decoder/serial/UART.ts:78-82 | the case ends where the wait for a high line fires, appending nothing and keeping the byte |
| Uart.StartSpec | src/streams/decoder/serial/UART.ts:83-90 | the case ends after the falling edge with one frame, keeping the byte |
| Uart.ByteSpec | src/streams/decoder/serial/UART.ts:91-105 | the case appends one frame and never moves time back |
| Uart.ParitySpec | src/streams/decoder/serial/UART.ts:106-127 | the case keeps the byte and never moves time back |
| Uart.StopSpec | src/streams/decoder/serial/UART.ts:128-140 | the case appends one frame over the stop bits and keeps the byte |
| Uart.CaseSpec | src/streams/decoder/serial/UART.ts:76-141 | no case moves time back, and only READ_BYTE changes the byte |
| Uart.StartOutcome | src/streams/decoder/serial/UART.ts:83-89 | WAIT_START runs to its end iff the edge comes and the input covers one full bit after it; it then appends "START" over that bit |
| Uart.ByteOutcome | src/streams/decoder/serial/UART.ts:91-102 | READ_BYTE runs to its end iff the input covers the data bits; it then appends one frame labelled with the fold of the mid-bit levels |
| Uart.ParityOutcome | src/streams/decoder/serial/UART.ts:110-124 | with a parity bit, CHECK_PARITY runs to its end iff the input covers that bit; it then appends the verdict on the level in its middle |
| Uart.ByteFrame | src/streams/decoder/serial/UART.ts:91-102 | a byte read to its end is one frame over the data bits, labelled with the byte unless it is 0, below `2^dataBits`, whose bits are the mid-bit levels |
| Uart.RunSpec | src/streams/decoder/serial/UART.ts:75-142 | `n` turns of the loop never move time back |
| Uart.RunFollowsStates | src/streams/decoder/serial/UART.ts:76-141 | a run that has not stopped is in the state that `n` steps of the state machine lead to |
| Uart.RunStep | src/streams/decoder/serial/UART.ts:76-141 | a turn that has not stopped follows one that had not, and moves the machine one state on |
| Uart.RunStays | src/streams/decoder/serial/UART.ts:75-142 | once a case stops short, the run stays where it stopped |
| Uart.TrackNext | src/streams/decoder/serial/UART.ts:76-141 | a case that runs to its end follows `RunSpec` one turn further |
| Uart.TrackStop | src/streams/decoder/serial/UART.ts:75-142 | a case that stops short ends the run, with the frames of the turns before it |
| Uart.AwaitIdle | src/streams/decoder/serial/UART.ts:78-82 | runs to its end iff `IdleSpec` does, appending nothing; otherwise nothing changes but what the wait handed on |
| Uart.AwaitStart | src/streams/decoder/serial/UART.ts:83-90 | runs to its end iff `StartSpec` does, appending its frame; otherwise appends nothing |
| Uart.StartAfterEdge | src/streams/decoder/serial/UART.ts:86-89 | after the edge, appends "START" over one full bit iff `StartSpec` runs to its end |
| Uart.ParityCase | src/streams/decoder/serial/UART.ts:106-127 | runs to its end iff `ParitySpec` does; without a parity bit at once, appending nothing |
| I2C.AckLabel | src/streams/decoder/serial/I2C.ts:103 | "ACK" iff SDA is 0, else "NACK" |
| I2C.DirectionLabel | src/streams/decoder/serial/I2C.ts:89 | "R" iff the bit is 1, else "W" |
| I2C.Rises | src/streams/decoder/serial/I2C.ts:83-86 | at most `n` rising edges, each strictly after the one before |
| I2C.RisesStop | src/streams/decoder/serial/I2C.ts:83-86 | once a wait does not resolve, no later one is made |
| I2C.OrNextBit | src/streams/decoder/serial/I2C.ts:85 | `byte \|= sda << (7 - i)` puts the bit below those already read |
| I2C.AddressSplit | src/streams/decoder/serial/I2C.ts:87-89 | `byte >> 1` is the fold of the first seven bits and the eighth bit is the byte's low bit (`byte % 2`), the R/W bit |
| I2C.IdleSpec | src/streams/decoder/serial/I2C.ts:49-53 | wait for SDA and SCL both high, then WAIT_START |
| I2C.StartSpec | src/streams/decoder/serial/I2C.ts:54-61 | SDA falling while SCL is high opens "START", closed at the next sample with SCL low |
| I2C.ByteSpec | src/streams/decoder/serial/I2C.ts:83-100 | the rest of a byte ends later than it began, its frames in order, next state WAIT_ACK with `waitAddr` cleared |
| I2C.ByteFrames | src/streams/decoder/serial/I2C.ts:83-98 | first byte: address frame `byte >> 1` below 128, then "R" iff the eighth bit is 1, else "W"; later bytes: one frame with the byte, below 256, bit `7 - i` set iff SDA was high at edge `i` |
| I2C.ExampleAddress | src/streams/decoder/serial/I2C.ts:29-31 | the address bits of the documented example, 1010111 then 0, read as address 0x57 for writing ("W") |
| I2C.ExampleData | src/streams/decoder/serial/I2C.ts:29-32 | the data bits of the documented example, 10111000, read as 0xb8 |
| I2C.RestartSpec | src/streams/decoder/serial/I2C.ts:77-80 | a repeated START seals the frame as "RS" at the next SCL low and stays in read_byte |
| I2C.AfterFirstBitSpec | src/streams/decoder/serial/I2C.ts:67-81 | STOP seals "STOP" and returns to wait_start; REP_START or the rest of the byte otherwise |
| I2C.ReadByteSpec | src/streams/decoder/serial/I2C.ts:62-100 | the case ends after it began, with its frames in order |
| I2C.AckSpec | src/streams/decoder/serial/I2C.ts:101-107 | the ACK/NACK frame from the rising edge to the next SCL low, then read_byte |
| I2C.StepSpec | src/streams/decoder/serial/I2C.ts:48-108 | every case moves time forward with its frames in order; `waitAddr` after it is the old one unless the case read a byte, which clears it |
| I2C.EngineSteps | src/streams/decoder/serial/I2C.ts:48-108 | the cases of the decoder on an input, moving forward |
| I2C.RunSpec | src/streams/decoder/serial/I2C.ts:47-109 | `n` turns of the loop never move time back |
| I2C.RunInOrder | src/streams/decoder/serial/I2C.ts:47-109 | the frames of a run follow one another, each starting no later than it ends |
| I2C.RunStays | src/streams/decoder/serial/I2C.ts:47-109 | once a case stops short, the run stays where it stopped |
| I2C.AddressOnlyOnce | src/streams/decoder/serial/I2C.ts:44-96 | once `waitAddr` is false it stays false for every later turn |
| I2C.SealAt | src/streams/decoder/serial/I2C.ts:58-59 | waits, then seals the open frame where the wait stopped; if the wait does not resolve, nothing is appended and at most one flush is handed on |
| I2C.StartCase | src/streams/decoder/serial/I2C.ts:54-61 | runs to its end iff `StartSpec` does, appending its frames; otherwise appends nothing |
| I2C.AckCase | src/streams/decoder/serial/I2C.ts:101-107 | runs to its end iff `AckSpec` does, appending its frames; otherwise appends nothing |
| I2C.NextRise | src/streams/decoder/serial/I2C.ts:84 | the next rising edge of SCL and SDA there |
| I2C.ShiftStep | src/streams/decoder/serial/I2C.ts:85 | the byte stays the fold of the bits read so far, shifted into place |
| I2C.ShiftInByte | src/streams/decoder/serial/I2C.ts:83-86 | the loop reads seven more bits at the next rising edges, MSB first |
| I2C.ShiftedNext | src/streams/decoder/serial/I2C.ts:83-91 | one turn of the bit loop keeps its invariant |
| I2C.ByteEnd | src/streams/decoder/serial/I2C.ts:87-100 | the address and direction frames, or the data frame, as `ByteSpec` lists them; if it stops short, only "bytes" has grown and at most one flush was handed on |
| I2C.AddressEnd | src/streams/decoder/serial/I2C.ts:87-96 | the address frame up to the eighth edge, then the direction frame up to SCL falling; if SCL never falls, the address frame and nothing else was appended |
| I2C.SplitAddress | src/streams/decoder/serial/I2C.ts:88-89 | seals the address frame and opens the direction frame at the eighth edge |
| I2C.ByteCase | src/streams/decoder/serial/I2C.ts:83-100 | the rest of a byte as `ByteSpec` says |
| I2C.AfterFirstBitCase | src/streams/decoder/serial/I2C.ts:67-100 | STOP, repeated START or the rest of the byte, as `AfterFirstBitSpec` says |
| I2C.ReadByteCase | src/streams/decoder/serial/I2C.ts:62-100 | runs to its end iff `ReadByteSpec` does, appending its frames; if it stops short, only "bytes" has grown and at most one flush was handed on |
| I2C.RunState | src/streams/decoder/serial/I2C.ts:48-108 | one case of the switch, as the steps say |
| I2C.FrameDecode | src/streams/decoder/serial/I2C.ts:40-110 | the loop ends in the state `RunSpec` gives; unless a case stopped short it appended exactly `RunSpec`'s frames; if one did, `RunSpec`'s frames come first, then only what that case appended, and either its wait threw (nothing handed on, both records as they were) or it suspended (one flush, and that wait set in exactly one record) |
| I2C.Turn | src/streams/decoder/serial/I2C.ts:47-109 | one turn of the loop follows `RunSpec` one step |
| I2C.TrackNext | src/streams/decoder/serial/I2C.ts:47-109 | a case that runs to its end follows `RunSpec` one turn further |
| I2C.TrackStop | src/streams/decoder/serial/I2C.ts:47-109 | a case that stops short ends the run |
| I2C.NewI2cDecoder | src/streams/decoder/serial/I2C.ts:36-38 | the engine with the outputs "bits" and "bytes", reset |
| I2C.DecodeI2c | src/streams/decoder/serial/I2C.ts:40-110 | decoding from the start, "bytes" holds exactly the frames of `RunSpec` unless a case stopped short, and begins with them if one did. If no case stopped short, the cursor is at the run's time, only `reset`'s flush was handed on and no wait is recorded. If one did, either nothing more was handed on and no wait is recorded, or one more flush was and exactly one record is set |
| I2C.FrameToLow | src/streams/decoder/serial/I2C.ts:57-59 | opens a frame, then seals it with its label at the next SCL low; without that low nothing is appended |
| I2C.ShiftInNext | src/streams/decoder/serial/I2C.ts:84-85 | one further bit at the next rising edge of SCL; when that wait does not resolve there are fewer than seven edges |
| I2C.ShiftedFirst | src/streams/decoder/serial/I2C.ts:64 | before the loop the first bit sits at the top of the byte |
| I2C.ShiftedAll | src/streams/decoder/serial/I2C.ts:83-91 | after the loop the byte is the fold of the first bit and the seven rising edges, and the eighth bit is the last |
| Streams.Calls | src/core/Stream.ts:58-68 | at most one callback call per entry; an entry with a callback is called first |
| Streams.CallsConcat | src/core/Stream.ts:59-67 | two batches of entries call what each batch calls, in order |
| Streams.CallsExactly | src/core/Stream.ts:59-67 | a callback gets a waveform iff some entry with that waveform is on a channel with that callback |
| Streams.WaveformStream.constructor | src/core/Stream.ts:33-35 | a copy of the default parameters, no callbacks |
| Streams.WaveformStream.GetParameter | src/core/Stream.ts:73-75 | defined exactly for the stored parameters |
| Streams.WaveformStream.SetCallback | src/core/Stream.ts:49-52 | only the channel's callback is replaced |
| Streams.WaveformStream.OnWaveformReady | src/core/Stream.ts:58-68 | the loop runs the registered callbacks in entry order, skipping channels without one |
| Streams.StreamRegistry.constructor | src/core/Stream.ts:99 | an empty registry |
| Streams.StreamRegistry.RegisterStream | src/core/Stream.ts:111-123 | a new category gets a one-element list, a known one an appended item; others are unchanged |
| Streams.StreamRegistry.GetStreamList | src/core/Stream.ts:128-130 | the same categories and lists as the registry |
| Sessions.DisplayName | src/core/Session.ts:48 | the declared name, or the channel when there is none |
| Sessions.NewInstance | src/core/Session.ts:47-54 | named `streamName + " (" + name + ")"`, unlocked, not appending, no waveform |
| Sessions.NewInstanceType | src/core/Session.ts:49 | the instance takes the output's declared `dataType` |
| Sessions.DeclaredType | src/core/Session.ts:49 | `outputMetadata.dataType` is undefined exactly for an output declared by a bare type name |
| Sessions.BareOutputNeverOfType | src/core/Session.ts:47-54 | an output declared by a bare type name gets an instance without a type, which `getWaveformsOfType` never returns |
| Sessions.RegisteredAt | src/core/Session.ts:46-63 | output `i` gets the callback of instance `base + i`; other channels keep theirs |
| Sessions.OfType | src/core/Session.ts:84-86 | only instances of the list with the type |
| Sessions.OfTypeConcat | src/core/Session.ts:85 | the filter of a list made of two parts filters each part, in order |
| Sessions.OfTypeComplete | src/core/Session.ts:85 | every instance with the type is kept |
| Sessions.Updated | src/core/Session.ts:103-107 | the waveform is replaced unless the instance appends and has one; nothing else changes |
| Sessions.Session.constructor | src/core/Session.ts:30-32 | no instances, no render |
| Sessions.Session.AddStream | src/core/Session.ts:44-70 | one new instance per output, in order, after the old list, then one render, as if `stream.start()` delivered nothing synchronously |
| Sessions.Session.GetWaveformsOfType | src/core/Session.ts:84-86 | exactly the instances with the type |
| Sessions.Session.UpdateWaveform | src/core/Session.ts:92-116 | locked: nothing changes and no render; otherwise the instance is updated and the first update of a sequence renders once |
| BinaryText.ParseBits | src/streams/simulated/BinaryTextStream.ts:36-37 | one bit per character, 1 iff the character is '1' |
| BinaryText.BitsText | src/streams/simulated/BinaryTextStream.ts:37 | one character per bit, '1' for 1 and '0' for 0 |
| BinaryText.ParseWritten | src/streams/simulated/BinaryTextStream.ts:37 | parsing the written bits gives them back |
| BinaryText.WrittenParse | src/streams/simulated/BinaryTextStream.ts:36-37 | a text is written back as itself iff it holds only '0' and '1' |
| BinaryText.TextWaveform | src/streams/simulated/BinaryTextStream.ts:39 | binary, one sample per character, sample rate `1 / period` |
| BinaryText.NewBinaryTextStream | src/streams/simulated/BinaryTextStream.ts:29-31 | the stream with its metadata and the initial parameters |
| BinaryText.Start | src/streams/simulated/BinaryTextStream.ts:33-40 | one waveform on "data", handed to that channel's callback if there is one |
| BinaryText.OnSetParameter | src/streams/simulated/BinaryTextStream.ts:42-44 | every change is accepted |

## Left out

- Promises and async control flow are not modelled. A pending `waitTime` or
  `waitTrigger` is a suspension record. A decoder body whose wait suspends
  stops there. The body does not go on when a later `decode` resolves the
  stored Promise: continuing from the middle of a case needs the JavaScript
  continuation, which this model does not have.
- Uart.DecodeUart, I2C.DecodeI2c: for a run in which a case stopped short,
  neither the cursor nor which wait is recorded is stated. The contract says
  only that the wait either threw, leaving no record and handing nothing
  more on, or suspended, setting exactly one record after one flush.
- Uart.DecodeUart, I2C.DecodeI2c: the frames are stated only for a decode
  from the start. A decode that starts the body without a reset goes on
  from the old cursor (`FrameDecoder.ts:295-300`); the model states only
  which step happened and that the new input is taken.
- FrameDecoder.FrameDecoderStream.Flush, FrameDecoder.FlushLog,
  Sessions.Session.UpdateWaveform: a flush hands on a copy of each buffer.
  In the source it hands on the live buffer object (`FrameDecoder.ts:316`),
  which `updateWaveform` stores as the instance's waveform
  (`Session.ts:106`). Every frame `endFrame` pushes after a flush then
  shows at once in that waveform, and only `reset` breaks the sharing by
  replacing the buffers (`FrameDecoder.ts:339`). The model's consumer sees
  no frame sealed between flushes. The render lists (`Session.ts:69,114`)
  are shallow copies that share the instance objects with later updates;
  the model's render lists are value snapshots that do not.
- Promise `resolve`/`reject` callbacks and the `.then`/`.catch` chains of
  `decode` are not modelled. The rejections `reset` makes are not either.
- `getInputAtTime` is not part of this model. It is taken to deliver every
  channel's sample at the cursor, as `waitTime` does.
- `getParameterValues`, `DecoderStream` and `InputSamples` are not part of
  this model. Parameter values are passed in directly.
- `console.assert` becomes a precondition where the caller can ensure it
  holds: a positive delay for `waitTime`, a declared channel for
  `setCallback`. The stop-bit asserts of `UART.ts:132-134` are reported
  as a result (`lineHigh`) and do not stop anything. The `dataType` assert
  of `Stream.ts:63` and the label assert of `FrameDecoder.ts:265` are left
  out, since they only warn.
- The I2C output `"bits"` is declared but never written. The model keeps the
  buffer and proves nothing about it.
- Uart.FrameDecode, I2C.FrameDecode: the `while (true)` loops run for at most
  `fuel` cases. What a run does after that many cases is not stated.
- I2C.FrameDecode, I2C.DecodeI2c: the frames are stated only when no frame of
  `"bytes"` is open as the body starts. This is always so after a `reset`.
- I2C.ExampleAddress, I2C.ExampleData: they fold the bit values of the
  example in the comment at `I2C.ts:26-33`, written as literals. The decoder
  is not run on that trace: the waveform would have to be scanned sample by
  sample through `Scan`.
- Float rounding is not modelled. Times and rates are exact reals.
  `Math.round` at `FrameDecoder.ts:200` is therefore the identity.
- The tie-break of `PriorityQueue` between equal times and equal rates is
  not given by the source. The model takes the first such item in queue
  order, and a re-added item goes to the end.
- Sessions.Session.AddStream: `stream.start()` (`Session.ts:66`) is not
  modelled. The model behaves as if it delivered nothing synchronously. A
  stream such as the binary-text stream calls `onWaveformReady` from inside
  `start()` (`BinaryTextStream.ts:39`). In the source, its instances may then
  already hold a waveform, and a render may already have happened, before
  `addStream` renders.
- Util: JavaScript objects are entry lists kept in insertion order.
  JavaScript lists integer-like keys (such as "0" or "12") first, in
  ascending order, in `Object.entries` and `for...in`. For channel, output
  or condition names of that form, the order of `FirstSatisfied`, of
  `flush` and of `addStream` can differ from the source.
- BinaryText.ParseBits: the text is a sequence of Unicode scalar values.
  `data.split("")` (`BinaryTextStream.ts:37`) splits it into UTF-16 code
  units instead. A character outside the Basic Multilingual Plane gives one
  0 bit here and two in the source, so `|bits| == |text|` matches the source
  only for texts inside that plane.
- Uart.HalfBit, Uart.FullBit: the two delays carry no contract of their
  own. Their values are stated by `BitRate` and `BitTimes`.
- Sessions.WaveformInstance: the `listeners` list (always empty) is left out.
  An instance is identified by its position in the list, so the sharing of
  one instance object between the list and its callback closure is not
  modelled.
- Streams.StreamRegistry.GetStreamList: the spread copies only the top
  level, so the per-category arrays are shared with the registry. The model
  returns a value, so a later `registerStream` into an existing category
  does not show in an earlier result, as it would in the source.
- Streams.WaveformStream: the callback closures are values
  (`UpdateWaveformOf(index)`). The stream records which callback was given
  which waveform. Running that callback is `Sessions.Session.UpdateWaveform`
  on that index.
- The module-level `registerStream(...)` calls run on import, and the
  commented-out classes of `Stream.ts:133-212`, are not modelled.

## Where the code differs from its comments

The model follows the code as written.

- `decode` replays a stored `waitTime` by calling `waitTime(promise.time)`
  (`FrameDecoder.ts:285`). `time` is the absolute target stored at line
  122, not a delay, so the replay waits until about twice as far.
  `FrameDecoderStream.ReplayTime` states exactly this.
- The trigger replay at `FrameDecoder.ts:292` passes no flag table. The
  table stored at line 214 is dropped and the call counts as fresh: the skip
  loop of lines 182-188 discards the samples at the cursor. This is contrary
  to the comment at lines 203-206. `FrameDecoderStream.ReplayTrigger` states
  exactly this.
- `currentInput` is refreshed only when no suspension is pending
  (`FrameDecoder.ts:298`). A replay uses the input of the earlier `decode`.
- The `try/catch` of `FrameDecoder.ts:297-303` cannot catch the rejections
  of the async `frameDecode`. The model treats a `startFrame` that throws
  inside the body as the body stopping, with no reset.
- `endFrame` returns its `Error` instead of throwing it
  (`FrameDecoder.ts:260`). It takes the new label only when it is truthy
  (line 262). As a result:
  - a UART byte 0, an I2C address 0 and an I2C data byte 0 leave their
    frames unlabelled (`ZeroLabelDropped`, `ByteFrames`);
  - the UART parity verdict and the STOP/RS/ACK labels are never empty.
- UART `CHECK_PARITY` never assigns `fsm` when a parity bit is configured
  (`UART.ts:110-127`). The machine then checks the same byte's parity
  again and again and never reads another byte (`ParityStaysInCheck`).
- The UART stop frame is labelled `"START"` (`UART.ts:129`).
- I2C's `waitAddr` is cleared after the first byte and never set again
  (`AddressOnlyOnce`). After a STOP or a repeated START, the next address
  byte is read as data.
- `Stream.ts` declares each output as a bare type name, but `Session.ts`
  reads `.name` and `.dataType` of it (lines 48-49). For a stream declared
  that way, such as the binary-text stream, the instance takes the channel
  as its name and its type is undefined. `getWaveformsOfType` then never
  returns it. `Sessions.DeclaredType` models both forms.
