/** The frame-decoding engine `FrameDecoderStream`
    (src/streams/decoder/FrameDecoder.ts:80-386): a time cursor over the
    current input buffers, the two waiting primitives, frame assembly into
    per-channel output buffers, and the single suspension record that stands
    for a pending Promise. */
module FrameDecoder {
  import opened Wrappers
  import opened Util
  import opened Waveforms
  import opened Triggers
  import opened Scheduler
  import opened SchedulerFacts

  /** How a call to `waitTime` or `waitTrigger` ends: it throws
      `NoInputAssignedError`, it throws a `TypeError` (polling an empty
      queue), it returns a Promise that stays pending until more data comes,
      or it returns a resolved Promise with a value. */
  datatype Wait<T> = NoInput | Crash | Pending | Ready(value: T)

  /** An entry of `startedFrame`: a frame with its start and optional label. */
  datatype OpenFrame = OpenFrame(start: real, data: Option<Label>)

  /** What `triggerPromise` keeps besides its callbacks. */
  datatype TriggerWait = TriggerWait(triggers: TriggerSet, state: TriggerState)

  /** What one call of `decode` did. */
  datatype DecodeStep =
    | ReplayedTime(time: Wait<Entries<Option<real>>>)
    | ReplayedTrigger(trigger: Wait<(string, Entries<Option<real>>)>)
    | BodyStarted

  /** Input buffers the engine can sample: object keys are distinct and
      every channel is analog or binary with a positive sample rate. */
  predicate WellFormedInput(input: Entries<Waveform>) {
    DistinctKeys(input) && forall i :: 0 <= i < |input| ==> SampledInput(input[i].1)
  }

  /** `Math.floor(t * waveform.sampleRate)` */
  function IndexAt(w: Waveform, t: real): (i: int)
    requires SampledInput(w)
    ensures i as real <= t * w.sampleRate < i as real + 1.0
  {
    (t * w.sampleRate).Floor
  }

  /** The sample of `w` in force at time `t`, or None (JavaScript
      `undefined`) when the buffer has no sample there. */
  function SampleAt(w: Waveform, t: real): Option<real>
  {
    if SampledInput(w) && 0 <= IndexAt(w, t) < w.Length() then Some(w.At(IndexAt(w, t))) else None
  }

  /** Every channel at time `t`, keyed like the input. `waitTime` delivers
      this (with every entry present), and `getInputAtTime`, which is not
      part of this model, is taken to do the same. */
  function InputAtTime(input: Entries<Waveform>, t: real): Entries<Option<real>>
  {
    ObjectMap(input, (ch: string, w: Waveform) => SampleAt(w, t))
  }

  /** Every channel has a sample at time `t`: the test of lines 118-124. */
  predicate AllInRange(input: Entries<Waveform>, t: real) {
    forall i :: 0 <= i < |input| ==> SampleAt(input[i].1, t).Some?
  }

  /** The samples delivered at `t` are, channel by channel in input order,
      `data[Math.floor(t * sampleRate)]`. */
  lemma {:induction false} InputAtTimeAt(input: Entries<Waveform>, t: real, i: nat)
    requires WellFormedInput(input) && AllInRange(input, t) && i < |input|
    ensures |InputAtTime(input, t)| == |input|
    ensures 0 <= IndexAt(input[i].1, t) < input[i].1.Length()
    ensures InputAtTime(input, t)[i] == (input[i].0, Some(input[i].1.At(IndexAt(input[i].1, t))))
  {
    ObjectMapAt(input, (ch: string, w: Waveform) => SampleAt(w, t), i);
  }

  /** `values[ch]`: the sample of `ch`, or undefined without such a key. */
  function Read(values: Entries<Option<real>>, ch: string): Option<real>
  {
    match Lookup(values, ch)
    case Some(v) => v
    case None => None
  }

  /** The sample at `t` of the first channel named `ch`, or undefined
      when no channel has that name. */
  function LineAt(input: Entries<Waveform>, ch: string, t: real): Option<real>
    decreases |input|
  {
    if input == [] then None
    else if input[0].0 == ch then SampleAt(input[0].1, t)
    else LineAt(input[1..], ch, t)
  }

  /** `(await this.waitTime(...))[ch]`: reading channel `ch` of what
      `waitTime` delivers at `t` gives that channel's sample at `t`. */
  lemma {:induction false} LineAtRead(input: Entries<Waveform>, ch: string, t: real)
    ensures Read(InputAtTime(input, t), ch) == LineAt(input, ch, t)
    decreases |input|
  {
    if input != [] {
      var m := InputAtTime(input, t);
      InputAtTimeCons(input, t);
      LineAtRead(input[1..], ch, t);
    }
  }

  /** The delivered samples, entry by entry: the first channel's, then the rest. */
  lemma {:induction false} InputAtTimeCons(input: Entries<Waveform>, t: real)
    requires input != []
    ensures InputAtTime(input, t)[0] == (input[0].0, SampleAt(input[0].1, t))
    ensures InputAtTime(input, t)[1..] == InputAtTime(input[1..], t)
  {
  }

  /** A buffer that has no sample at `t` has none later either, so a later
      time is out of range as soon as an earlier one is. */
  lemma {:induction false} OutOfRangeLater(input: Entries<Waveform>, t: real, t': real)
    requires WellFormedInput(input) && 0.0 <= t <= t' && !AllInRange(input, t)
    ensures !AllInRange(input, t')
  {
    var i :| 0 <= i < |input| && SampleAt(input[i].1, t).None?;
    var w := input[i].1;
    assert (t' - t) * w.sampleRate >= 0.0;
    assert 0.0 <= t * w.sampleRate <= t' * w.sampleRate;
    assert 0 <= IndexAt(w, t) <= IndexAt(w, t');
  }

  /** The calls `flush` makes to `onWaveformReady`, in output order: one per
      channel whose buffer is not empty, with the whole buffer (which stays
      in place). */
  function FlushLog(outputs: seq<string>, out: map<string, seq<Frame>>): (log: seq<(string, seq<Frame>)>)
    ensures |log| <= |outputs|
  {
    if outputs == [] then []
    else
      var rest := FlushLog(outputs[1..], out);
      if outputs[0] in out && |out[outputs[0]]| > 0 then [(outputs[0], out[outputs[0]])] + rest else rest
  }

  /** `flush` hands over exactly the non-empty buffers, each whole, each
      under its own channel. */
  lemma {:induction false} FlushLogContents(outputs: seq<string>, out: map<string, seq<Frame>>)
    ensures forall n :: 0 <= n < |FlushLog(outputs, out)| ==>
      var e := FlushLog(outputs, out)[n];
      e.0 in outputs && e.0 in out && e.1 == out[e.0] && |e.1| > 0
    ensures forall i :: 0 <= i < |outputs| && outputs[i] in out && |out[outputs[i]]| > 0 ==>
      (outputs[i], out[outputs[i]]) in FlushLog(outputs, out)
  {
    if outputs != [] {
      var rest := FlushLog(outputs[1..], out);
      var log := FlushLog(outputs, out);
      FlushLogContents(outputs[1..], out);
      assert forall i :: 1 <= i < |outputs| ==> outputs[i] == outputs[1..][i - 1];
      forall n | 0 <= n < |log|
        ensures log[n].0 in outputs && log[n].0 in out && log[n].1 == out[log[n].0] && |log[n].1| > 0
      {
        var m := if outputs[0] in out && |out[outputs[0]]| > 0 then n - 1 else n;
        if m >= 0 {
          assert log[n] == rest[m];
          assert rest[m].0 in outputs[1..];
        }
      }
    }
  }

  /** With every buffer empty, `flush` calls nothing. */
  lemma {:induction false} FlushLogNothing(outputs: seq<string>, out: map<string, seq<Frame>>)
    requires forall i :: 0 <= i < |outputs| ==> outputs[i] in out && out[outputs[i]] == []
    ensures FlushLog(outputs, out) == []
  {
    if outputs != [] {
      assert forall i :: 0 <= i < |outputs[1..]| ==> outputs[1..][i] == outputs[i + 1];
      FlushLogNothing(outputs[1..], out);
    }
  }

  /** Where a call to `waitTrigger` starts: the queue of lines 168-177, after
      the skip loop of lines 182-188 when no flag table is passed in. */
  function StartQueue(input: Entries<Waveform>, ts: TriggerSet, t: real, skipCursor: bool): (q: seq<QueueItem>)
    requires t >= 0.0 && WellFormedInput(input)
    ensures AllValid(q) && forall i :: 0 <= i < |q| ==> Time(q[i]) >= t
  {
    var q0 := InitialQueue(input, ts, t);
    if skipCursor then
      SkipAtAfter(q0, t);
      SkipAt(q0, t)
    else q0
  }

  /** The flag table of line 193: the one passed in, or all false. */
  function StartTracker(ts: TriggerSet, state: Option<TriggerState>): (tracker: TriggerState)
    requires state.Some? ==> SameShape(ts, state.value)
    ensures SameShape(ts, tracker)
  {
    if state.Some? then state.value else FreshTracker(ts)
  }

  /** The value `waitTrigger` resolves with, or how it fails to. */
  function TriggerOutcome(input: Entries<Waveform>, ts: TriggerSet, t: real, state: Option<TriggerState>)
    : Wait<(string, Entries<Option<real>>)>
    requires t >= 0.0 && WellFormedInput(input)
    requires state.Some? ==> SameShape(ts, state.value)
  {
    match Scan(ts, StartQueue(input, ts, t, state.None?), StartTracker(ts, state))
    case Crashed => Crash
    case Suspend(_, _) => Pending
    case Fire(c, time, _) => Ready((c, InputAtTime(input, time)))
  }

  /** A fresh `waitTrigger` only ever resolves or suspends at a sample time
      strictly after the cursor it started from; one resumed with a flag
      table never before it. */
  lemma {:induction false} TriggerWaitMovesForward(input: Entries<Waveform>, ts: TriggerSet, t: real, state: Option<TriggerState>)
    requires t >= 0.0 && WellFormedInput(input)
    requires state.Some? ==> SameShape(ts, state.value)
    ensures var r := Scan(ts, StartQueue(input, ts, t, state.None?), StartTracker(ts, state));
      !r.Crashed? ==> r.time >= t && (state.None? ==> r.time > t)
  {
    var q := StartQueue(input, ts, t, state.None?);
    if state.None? {
      SkipAtAfter(InitialQueue(input, ts, t), t);
      ScanNotEarlier(ts, q, StartTracker(ts, state), t, true);
    } else {
      ScanNotEarlier(ts, q, StartTracker(ts, state), t, false);
    }
  }

  /** `waitTrigger` crashes exactly when no input channel is named by any
      condition: the queue is empty and the first `poll()` gives undefined. */
  lemma {:induction false} TriggerWaitCrashes(input: Entries<Waveform>, ts: TriggerSet, t: real, state: Option<TriggerState>)
    requires t >= 0.0 && WellFormedInput(input)
    requires state.Some? ==> SameShape(ts, state.value)
    ensures Scan(ts, StartQueue(input, ts, t, state.None?), StartTracker(ts, state)).Crashed?
        <==> forall i :: 0 <= i < |input| ==> !Named(ts, input[i].0)
  {
    var q0 := InitialQueue(input, ts, t);
    var q := StartQueue(input, ts, t, state.None?);
    assert |q| == |q0|;
    ScanCrashesIffEmpty(ts, q, StartTracker(ts, state));
    InitialQueueChannels(input, ts, t);
    if forall i :: 0 <= i < |input| ==> !Named(ts, input[i].0) {
      NothingNamedNothingQueued(input, ts, t);
    }
  }

  lemma {:induction false} NothingNamedNothingQueued(input: Entries<Waveform>, ts: TriggerSet, t: real)
    requires t >= 0.0 && WellFormedInput(input)
    requires forall i :: 0 <= i < |input| ==> !Named(ts, input[i].0)
    ensures InitialQueue(input, ts, t) == []
  {
    if input != [] {
      assert !Named(ts, input[0].0);
      assert WellFormedInput(input[1..]) by {
        assert forall i, j :: 0 <= i < j < |input[1..]| ==> input[1..][i] == input[i + 1] && input[1..][j] == input[j + 1];
      }
      NothingNamedNothingQueued(input[1..], ts, t);
    }
  }

  /** Lines 218-229: read the popped sample and the one before it, and
      overwrite the flag of `item.ch` in every condition that names it. */
  method ApplySample(ts: TriggerSet, tracker: TriggerState, item: QueueItem) returns (r: TriggerState)
    requires SameShape(ts, tracker) && ValidItem(item) && HasData(item)
    ensures r == Apply(ts, tracker, item)
  {
    var index := item.index;
    var prevValue := PrevValue(item);
    var currValue := item.wave.At(index);
    ghost var goal := Apply(ts, tracker, item);
    r := tracker;
    for i := 0 to |tracker|
      invariant |r| == |tracker|
      invariant forall l :: 0 <= l < |r| ==> r[l] == if l < i then goal[l] else tracker[l]
    {
      ApplyEntry(ts, tracker, item, i);
      assert r[i] == tracker[i];
      if HasKey(r[i].1, item.ch) {
        var flags := UpdateCondition(ts[i].1, r[i].1, item.ch, item.wave.DataType(), prevValue, currValue);
        r := r[i := (r[i].0, flags)];
      }
    }
    assert |goal| == |r|;
  }

  /** Entry `i` of the table after a sample: the condition's flags updated
      when it names the sample's channel, left as they were otherwise. */
  lemma {:induction false} ApplyEntry(ts: TriggerSet, tracker: TriggerState, item: QueueItem, i: nat)
    requires SameShape(ts, tracker) && ValidItem(item) && HasData(item) && i < |ts|
    ensures |Apply(ts, tracker, item)| == |tracker| && Keys(tracker[i].1) == Keys(ts[i].1)
    ensures Apply(ts, tracker, item)[i]
         == if HasKey(tracker[i].1, item.ch)
            then (tracker[i].0, UpdateCondition(ts[i].1, tracker[i].1, item.ch, item.wave.DataType(), PrevValue(item), item.wave.At(item.index)))
            else tracker[i]
  {
    var prev, curr := PrevValue(item), item.wave.At(item.index);
    UpdateTrackerAt(ts, tracker, item.ch, item.wave.DataType(), prev, curr, i);
    if !HasKey(tracker[i].1, item.ch) {
      UpdateConditionAbsent(ts[i].1, tracker[i].1, item.ch, item.wave.DataType(), prev, curr);
    }
  }

  /** Lines 231-235: the first condition, in the trigger set's order, whose
      flags are all true. */
  method FindSatisfied(ts: TriggerSet, tracker: TriggerState) returns (r: Option<string>)
    requires SameShape(ts, tracker)
    ensures r == FirstSatisfied(ts, tracker)
  {
    for i := 0 to |ts|
      invariant forall l :: 0 <= l < i ==> !AllTrue(tracker[l].1)
    {
      if AllTrue(tracker[i].1) {
        var f := FirstSatisfied(ts, tracker);
        if f.Some? {
          var i' :| 0 <= i' < |ts| && ts[i'].0 == f.value && AllTrue(tracker[i'].1)
                    && forall l :: 0 <= l < i' ==> !AllTrue(tracker[l].1);
          assert i' == i;
        }
        return Some(ts[i].0);
      }
    }
    return None;
  }

  /** Lines 168-177: one queue item per input channel that some condition
      names, in input order, at the first sample not before `t`. */
  method BuildQueue(input: Entries<Waveform>, ts: TriggerSet, t: real) returns (q: seq<QueueItem>)
    requires t >= 0.0 && WellFormedInput(input)
    ensures q == InitialQueue(input, ts, t)
  {
    q := [];
    for i := 0 to |input|
      invariant q == InitialQueue(input[..i], ts, t)
    {
      var ch := input[i].0;
      var w := input[i].1;
      assert input[..i + 1] == input[..i] + [(ch, w)];
      InitialQueueSnoc(input[..i], ch, w, ts, t);
      if Named(ts, ch) {
        q := q + [QueueItem(ch, w, CeilIndex(t, w.sampleRate))];
      }
    }
    assert input[..|input|] == input;
  }

  /** Lines 182-188: while the earliest queued sample lies at the cursor,
      move that channel one sample on. */
  method SkipCursor(q0: seq<QueueItem>, t: real) returns (q: seq<QueueItem>)
    requires AllValid(q0)
    ensures q == SkipAt(q0, t)
  {
    q := q0;
    while q != [] && Time(q[PickMin(q)]) == t
      invariant AllValid(q) && SkipAt(q, t) == SkipAt(q0, t)
      decreases CountAt(q, t)
    {
      var k := PickMin(q);
      SkipStep(q, k, t);
      q := Remove(q, k) + [Bump(q[k])];
    }
  }

  /** Lines 163-195: the starting queue and flag table of a call. */
  method StartScan(input: Entries<Waveform>, ts: TriggerSet, t: real, state: Option<TriggerState>)
    returns (q: seq<QueueItem>, tracker: TriggerState)
    requires t >= 0.0 && WellFormedInput(input)
    requires state.Some? ==> SameShape(ts, state.value)
    ensures q == StartQueue(input, ts, t, state.None?) && tracker == StartTracker(ts, state)
  {
    q := BuildQueue(input, ts, t);
    if state.None? {
      q := SkipCursor(q, t);
    }
    tracker := if state.Some? then state.value else FreshTracker(ts);
  }

  /** The `while (true)` loop of lines 197-240 on the queue and flag table
      alone: poll the earliest sample, stop if its channel has no data
      there, apply it, stop if a condition holds, else re-queue the channel
      one sample on. The cursor assignment of line 207 is left to the
      caller, which makes it with the time this returns; nothing in the
      loop reads the cursor. */
  method RunScan(ts: TriggerSet, q0: seq<QueueItem>, tracker0: TriggerState) returns (r: ScanResult)
    requires SameShape(ts, tracker0) && AllValid(q0)
    ensures r == Scan(ts, q0, tracker0)
  {
    var q, tracker := q0, tracker0;
    while true
      invariant AllValid(q) && SameShape(ts, tracker) && Scan(ts, q, tracker) == Scan(ts, q0, tracker0)
      decreases Remaining(q)
    {
      if q == [] {
        return Crashed;
      }
      var k := PickMin(q);
      var first := q[k];
      if !HasData(first) {
        return Suspend(Time(first), tracker);
      }
      tracker := ApplySample(ts, tracker, first);
      var c := FindSatisfied(ts, tracker);
      if c.Some? {
        return Fire(c.value, Time(first), tracker);
      }
      PopQueue(q);
      q := Remove(q, k) + [Bump(first)];
    }
  }

  /** The parts of the engine's invariant, each on the fields it is about. */
  predicate Distinct(outputs: seq<string>) {
    forall i, j :: 0 <= i < j < |outputs| ==> outputs[i] != outputs[j]
  }

  /** There is an output buffer for exactly the declared outputs. */
  ghost predicate BuffersFor(out: map<string, seq<Frame>>, outputs: seq<string>) {
    forall ch :: ch in out <==> ch in outputs
  }

  /** Open frames are on declared outputs and started no later than `t`. */
  ghost predicate OpenBefore(started: map<string, OpenFrame>, outputs: seq<string>, t: real) {
    forall ch :: ch in started ==> ch in outputs && started[ch].start <= t
  }

  /** Sealed frames start no later than they end, and end no later than `t`. */
  ghost predicate SealedBefore(out: map<string, seq<Frame>>, t: real) {
    forall ch, n :: ch in out && 0 <= n < |out[ch]| ==> out[ch][n].start <= out[ch][n].end <= t
  }

  predicate InputOk(input: Option<Entries<Waveform>>) {
    input.Some? ==> WellFormedInput(input.value)
  }

  /** A stored `waitTime` is for a positive time at which the input it
      was made on has no sample. */
  predicate TimeWaitOk(time: Option<real>, input: Option<Entries<Waveform>>) {
    time.Some? ==> time.value > 0.0 && input.Some? && InputOk(input) && !AllInRange(input.value, time.value)
  }

  /** A stored `waitTrigger` keeps a flag table shaped like its trigger set. */
  predicate TriggerWaitOk(wait: Option<TriggerWait>, input: Option<Entries<Waveform>>) {
    wait.Some? ==> SameShape(wait.value.triggers, wait.value.state) && input.Some?
  }

  class FrameDecoderStream {
    /** The keys of `metadata.output`, in order. */
    const outputs: seq<string>
    /** `currentInput`: None until `decode` assigns it. */
    var currentInput: Option<Entries<Waveform>>
    /** `currentOutput`: the frames sealed so far on each output channel. */
    var currentOutput: map<string, seq<Frame>>
    /** `startedFrame`: the open frame of each channel that has one. */
    var startedFrame: map<string, OpenFrame>
    /** `timeOffset`: the cursor, in seconds from the first input sample. */
    var timeOffset: real
    /** `timePromise`: the absolute time a suspended `waitTime` waits for. */
    var timeSuspension: Option<real>
    /** `triggerPromise`: the trigger set and flag table of a suspended `waitTrigger`. */
    var triggerSuspension: Option<TriggerWait>
    /** Every call made to `onWaveformReady`, oldest first. */
    var emitted: seq<(string, seq<Frame>)>

    ghost predicate Valid()
      reads this`currentInput, this`currentOutput, this`startedFrame, this`timeOffset
      reads this`timeSuspension, this`triggerSuspension
    {
      Distinct(outputs)
      && BuffersFor(currentOutput, outputs)
      && OpenBefore(startedFrame, outputs, timeOffset)
      && SealedBefore(currentOutput, timeOffset)
      && timeOffset >= 0.0
      && InputOk(currentInput)
      && TimeWaitOk(timeSuspension, currentInput)
      && TriggerWaitOk(triggerSuspension, currentInput)
    }

    /** Output buffers that are all empty: `{data: [], dataType: "frame"}` per channel. */
    static function EmptyOutput(outputs: seq<string>): map<string, seq<Frame>> {
      map ch | ch in outputs :: []
    }

    /** The constructor: output buffers from `metadata.output`, then `reset()`. */
    constructor(outputs: seq<string>)
      requires forall i, j :: 0 <= i < j < |outputs| ==> outputs[i] != outputs[j]
      ensures Valid() && this.outputs == outputs
      ensures currentInput == None && timeOffset == 0.0 && startedFrame == map[]
      ensures currentOutput == EmptyOutput(outputs) && emitted == []
      ensures timeSuspension == None && triggerSuspension == None
    {
      this.outputs := outputs;
      currentInput := None;
      currentOutput := EmptyOutput(outputs);
      startedFrame := map[];
      timeOffset := 0.0;
      timeSuspension := None;
      triggerSuspension := None;
      emitted := [];
      new;
      Reset();
      FlushLogNothing(outputs, EmptyOutput(outputs));
    }

    /** `flush`: hand every non-empty output buffer to `onWaveformReady`, in
        output order; the buffers are not cleared. */
    method Flush()
      requires Valid()
      modifies this`emitted
      ensures Valid()
      ensures emitted == old(emitted) + FlushLog(outputs, currentOutput)
    {
      for i := 0 to |outputs|
        invariant emitted == old(emitted) + FlushLog(outputs[..i], currentOutput)
      {
        var ch := outputs[i];
        assert outputs[..i + 1] == outputs[..i] + [ch];
        FlushLogSnoc(outputs[..i], ch, currentOutput);
        if |currentOutput[ch]| > 0 {
          emitted := emitted + [(ch, currentOutput[ch])];
        }
      }
      assert outputs[..|outputs|] == outputs;
    }

    /** `reset`: flush, then drop both suspensions, the cursor, the open
        frames, the input and every output buffer. */
    method Reset()
      requires Valid()
      modifies this
      ensures Valid()
      ensures emitted == old(emitted) + FlushLog(outputs, old(currentOutput))
      ensures timeSuspension == None && triggerSuspension == None
      ensures timeOffset == 0.0 && startedFrame == map[] && currentInput == None
      ensures currentOutput == EmptyOutput(outputs)
    {
      Flush();
      timeSuspension := None;
      triggerSuspension := None;
      timeOffset := 0.0;
      startedFrame := map[];
      currentInput := None;
      ClearOutputs();
    }

    /** The loop at the end of `reset`: every output buffer emptied. */
    method ClearOutputs()
      requires forall ch :: ch in currentOutput <==> ch in outputs
      modifies this`currentOutput
      ensures currentOutput == EmptyOutput(outputs)
    {
      for i := 0 to |outputs|
        invariant forall ch :: ch in currentOutput <==> ch in outputs
        invariant forall l :: 0 <= l < i ==> currentOutput[outputs[l]] == []
      {
        currentOutput := currentOutput[outputs[i] := []];
      }
      forall ch | ch in outputs ensures currentOutput[ch] == [] {
        var l :| 0 <= l < |outputs| && outputs[l] == ch;
      }
    }

    /** `startFrame`: open a frame on `ch` at the cursor, unless one is open. */
    method StartFrame(ch: string, data: Option<Label>) returns (r: Outcome)
      requires Valid() && ch in outputs
      modifies this`startedFrame
      ensures Valid()
      ensures old(ch in startedFrame) ==> r == Fail("Frame already started") && startedFrame == old(startedFrame)
      ensures old(ch !in startedFrame) ==> r == Pass && startedFrame == old(startedFrame)[ch := OpenFrame(timeOffset, data)]
    {
      if ch in startedFrame {
        return Fail("Frame already started");
      }
      startedFrame := startedFrame[ch := OpenFrame(timeOffset, data)];
      return Pass;
    }

    /** `endFrame`: seal the open frame of `ch` at the cursor and append it
        to that channel's buffer. The label given here replaces the one
        given at the start only when it is truthy. Without an open frame the
        error is returned, not thrown, and nothing changes. */
    method EndFrame(ch: string, data: Option<Label>) returns (r: Outcome)
      requires Valid() && ch in outputs
      modifies this`startedFrame, this`currentOutput
      ensures Valid()
      ensures old(ch !in startedFrame) ==> r == Fail("Frame not started") && unchanged(this)
      ensures old(ch in startedFrame) ==>
        var open := old(startedFrame[ch]);
        r == Pass
        && currentOutput == old(currentOutput)[ch := old(currentOutput[ch]) + [Seal(open, data, timeOffset)]]
        && startedFrame == old(startedFrame) - {ch}
    {
      if ch !in startedFrame {
        return Fail("Frame not started");
      }
      var frame := Seal(startedFrame[ch], data, timeOffset);
      currentOutput := currentOutput[ch := currentOutput[ch] + [frame]];
      startedFrame := startedFrame - {ch};
      return Pass;
    }

    /** `waitTime`: move the cursor `seconds` on and read every channel
        there, or, when some channel has no sample there yet, flush and
        suspend on that absolute time with the cursor left in place. */
    method WaitTime(seconds: real) returns (r: Wait<Entries<Option<real>>>)
      requires Valid() && seconds > 0.0
      modifies this`timeOffset, this`timeSuspension, this`emitted
      ensures Valid()
      ensures old(currentInput).None? ==> r == NoInput && unchanged(this)
      ensures currentInput.Some? && AllInRange(currentInput.value, old(timeOffset) + seconds) ==>
        r == Ready(InputAtTime(currentInput.value, old(timeOffset) + seconds))
        && timeOffset == old(timeOffset) + seconds
        && timeSuspension == old(timeSuspension) && emitted == old(emitted)
      ensures currentInput.Some? && !AllInRange(currentInput.value, old(timeOffset) + seconds) ==>
        r == Pending && timeOffset == old(timeOffset)
        && timeSuspension == Some(old(timeOffset) + seconds)
        && emitted == old(emitted) + FlushLog(outputs, currentOutput)
    {
      if currentInput.None? {
        return NoInput;
      }
      var input := currentInput.value;
      var nextTime := timeOffset + seconds;
      for i := 0 to |input|
        invariant forall l :: 0 <= l < i ==> SampleAt(input[l].1, nextTime).Some?
      {
        var w := input[i].1;
        assert SampledInput(w);
        if IndexAt(w, nextTime) >= w.Length() {
          Flush();
          timeSuspension := Some(nextTime);
          return Pending;
        }
        assert nextTime * w.sampleRate >= 0.0;
      }
      timeOffset := nextTime;
      return Ready(InputAtTime(input, nextTime));
    }

    /** `waitTrigger`: queue the channels the conditions name, skip the
        samples at the cursor when no flag table is passed in, then pop
        samples in merge order until a condition holds or a channel runs
        out of data. The whole run is the pure `Scan` of the starting queue
        and flag table; its result and stopping time are what this call
        returns and where it leaves the cursor. */
    method WaitTrigger(ts: TriggerSet, state: Option<TriggerState>) returns (r: Wait<(string, Entries<Option<real>>)>)
      requires Valid()
      requires state.Some? ==> SameShape(ts, state.value)
      modifies this`timeOffset, this`triggerSuspension, this`emitted
      ensures Valid()
      ensures old(currentInput).None? ==> r == NoInput && unchanged(this)
      ensures currentInput.Some? ==>
        var s := Scan(ts, StartQueue(currentInput.value, ts, old(timeOffset), state.None?), StartTracker(ts, state));
        r == TriggerOutcome(currentInput.value, ts, old(timeOffset), state)
        && (s.Crashed? ==> timeOffset == old(timeOffset))
        && (!s.Crashed? ==> timeOffset == s.time)
        && (s.Suspend? ==> triggerSuspension == Some(TriggerWait(ts, s.tracker))
                           && emitted == old(emitted) + FlushLog(outputs, currentOutput))
        && (!s.Suspend? ==> triggerSuspension == old(triggerSuspension) && emitted == old(emitted))
    {
      if currentInput.None? {
        return NoInput;
      }
      var input := currentInput.value;
      var t := timeOffset;
      var q, tracker := StartScan(input, ts, t, state);
      TriggerWaitMovesForward(input, ts, t, state);
      var outcome := RunScan(ts, q, tracker);
      match outcome {
        case Crashed =>
          return Crash;
        case Suspend(time, flags) =>
          MoveCursor(time);
          SuspendTrigger(ts, flags);
          return Pending;
        case Fire(c, time, _) =>
          MoveCursor(time);
          return Ready((c, InputAtTime(input, timeOffset)));
      }
    }

    /** Lines 212-215: flush, then keep the trigger set and a copy of the
        flag table for the next `decode`. */
    method SuspendTrigger(ts: TriggerSet, flags: TriggerState)
      requires Valid() && SameShape(ts, flags) && currentInput.Some?
      modifies this`triggerSuspension, this`emitted
      ensures Valid()
      ensures triggerSuspension == Some(TriggerWait(ts, flags))
      ensures emitted == old(emitted) + FlushLog(outputs, currentOutput)
    {
      Flush();
      triggerSuspension := Some(TriggerWait(ts, flags));
    }

    /** Line 207: the cursor moves to the popped sample's time, which is
        never before it. */
    method MoveCursor(time: real)
      requires Valid() && time >= timeOffset
      modifies this`timeOffset
      ensures Valid() && timeOffset == time
    {
      timeOffset := time;
    }

    /** Lines 281-286: clear the stored `waitTime` and call `waitTime` again
        with the stored time as the delay. */
    method ReplayTime() returns (w: Wait<Entries<Option<real>>>)
      requires Valid() && timeSuspension.Some?
      modifies this`timeOffset, this`timeSuspension, this`emitted
      ensures Valid()
      ensures w == Pending && timeOffset == old(timeOffset)
      ensures timeSuspension == Some(old(timeOffset) + old(timeSuspension).value)
      ensures emitted == old(emitted) + FlushLog(outputs, currentOutput)
    {
      var time := timeSuspension.value;
      ghost var input := currentInput.value;
      assert time > 0.0 && WellFormedInput(input) && !AllInRange(input, time);
      OutOfRangeLater(input, time, timeOffset + time);
      timeSuspension := None;
      w := WaitTime(time);
    }

    /** Lines 288-294: clear the stored `waitTrigger` and call `waitTrigger`
        again with its trigger set and no flag table. */
    method ReplayTrigger() returns (w: Wait<(string, Entries<Option<real>>)>)
      requires Valid() && timeSuspension.None? && triggerSuspension.Some?
      modifies this`timeOffset, this`triggerSuspension, this`emitted
      ensures Valid()
      ensures currentInput == old(currentInput)
      ensures
        var ts := old(triggerSuspension).value.triggers;
        var s := Scan(ts, StartQueue(currentInput.value, ts, old(timeOffset), true), StartTracker(ts, None));
        w == TriggerOutcome(currentInput.value, ts, old(timeOffset), None)
        && (s.Crashed? ==> timeOffset == old(timeOffset))
        && (!s.Crashed? ==> timeOffset == s.time)
        && (s.Suspend? ==> triggerSuspension == Some(TriggerWait(ts, s.tracker))
                           && emitted == old(emitted) + FlushLog(outputs, currentOutput))
        && (!s.Suspend? ==> triggerSuspension == None && emitted == old(emitted))
    {
      var pending := triggerSuspension.value;
      triggerSuspension := None;
      w := WaitTrigger(pending.triggers, None);
    }

    /** `decode`: after an optional reset, replay a stored `waitTime` in
        preference to a stored `waitTrigger`, clearing the record first;
        only with neither pending is the new input taken and the decoder
        body started. The replay passes the stored absolute time as a
        delay, passes no flag table, and keeps the old input. As a
        consequence a stored `waitTime` never resolves: the old input had
        no sample at the stored time, so it has none at the later time the
        replay asks for, and the call suspends again. */
    method Decode(input: Entries<Waveform>, fromStart: bool) returns (step: DecodeStep)
      requires Valid() && WellFormedInput(input)
      modifies this
      ensures Valid()
      ensures step.BodyStarted? <==> fromStart || (old(timeSuspension).None? && old(triggerSuspension).None?)
      ensures step.ReplayedTime? <==> !fromStart && old(timeSuspension).Some?
      ensures step.BodyStarted? ==> currentInput == Some(input) && timeSuspension == None && triggerSuspension == None
      ensures step.BodyStarted? && fromStart ==>
        timeOffset == 0.0 && startedFrame == map[] && currentOutput == EmptyOutput(outputs)
        && emitted == old(emitted) + FlushLog(outputs, old(currentOutput))
      ensures step.BodyStarted? && !fromStart ==>
        timeOffset == old(timeOffset) && startedFrame == old(startedFrame)
        && currentOutput == old(currentOutput) && emitted == old(emitted)
      ensures !step.BodyStarted? ==>
        currentInput == old(currentInput) && currentOutput == old(currentOutput) && startedFrame == old(startedFrame)
      ensures step.ReplayedTime? ==>
        step.time == Pending && triggerSuspension == old(triggerSuspension)
        && timeSuspension == Some(old(timeOffset) + old(timeSuspension).value) && timeOffset == old(timeOffset)
        && emitted == old(emitted) + FlushLog(outputs, currentOutput)
      ensures step.ReplayedTrigger? ==>
        var ts := old(triggerSuspension).value.triggers;
        var s := Scan(ts, StartQueue(currentInput.value, ts, old(timeOffset), true), StartTracker(ts, None));
        timeSuspension == None
        && step.trigger == TriggerOutcome(currentInput.value, ts, old(timeOffset), None)
        && (s.Crashed? ==> timeOffset == old(timeOffset))
        && (!s.Crashed? ==> timeOffset == s.time)
        && (s.Suspend? ==> triggerSuspension == Some(TriggerWait(ts, s.tracker))
                           && emitted == old(emitted) + FlushLog(outputs, currentOutput))
        && (!s.Suspend? ==> triggerSuspension == None && emitted == old(emitted))
    {
      if fromStart {
        Reset();
      }
      if timeSuspension.Some? {
        var w := ReplayTime();
        return ReplayedTime(w);
      } else if triggerSuspension.Some? {
        var w := ReplayTrigger();
        return ReplayedTrigger(w);
      } else {
        currentInput := Some(input);
        return BodyStarted;
      }
    }
  }

  /** `if (data)`: undefined, the empty string and 0 are falsy. */
  predicate Truthy(data: Option<Label>) {
    match data
    case None => false
    case Some(Text(s)) => s != ""
    case Some(Num(n)) => n != 0
  }

  /** The frame `endFrame` appends for an open frame sealed at `end`. */
  function Seal(open: OpenFrame, data: Option<Label>, end: real): (f: Frame)
    ensures f.start == open.start && f.end == end
    ensures f.data == (if Truthy(data) then data else open.data)
  {
    Frame(if Truthy(data) then data else open.data, open.start, end)
  }

  /** A zero byte handed to `endFrame` does not label the frame: the label
      given when it was opened stays. */
  lemma {:induction false} ZeroLabelDropped(open: OpenFrame, end: real)
    ensures Seal(open, Some(Num(0)), end).data == open.data
    ensures Seal(open, Some(Text("")), end).data == open.data
  {
  }

  /** One more output channel in `flush`'s loop. */
  lemma {:induction false} FlushLogSnoc(outputs: seq<string>, ch: string, out: map<string, seq<Frame>>)
    requires ch in out
    ensures FlushLog(outputs + [ch], out)
         == FlushLog(outputs, out) + (if |out[ch]| > 0 then [(ch, out[ch])] else [])
    decreases |outputs|
  {
    if outputs == [] {
      assert [ch][1..] == [];
    } else {
      assert (outputs + [ch])[1..] == outputs[1..] + [ch];
      FlushLogSnoc(outputs[1..], ch, out);
    }
  }
}
