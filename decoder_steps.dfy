/** What the serial decoders' bodies do with the engine, one call at a
    time: await a trigger, open a frame on `"bytes"` and seal it, and the
    engine state a decoder step starts from (src/streams/decoder/FrameDecoder.ts,
    as used by src/streams/decoder/serial/UART.ts and I2C.ts). */
module DecoderSteps {
  import opened Wrappers
  import opened Util
  import opened Waveforms
  import opened Triggers
  import opened Scheduler
  import opened FrameDecoder

  /** Where a fresh `waitTrigger(ts)` called with the cursor at `t` stops:
      never at or before `t`. */
  function FreshScan(input: Entries<Waveform>, ts: TriggerSet, t: real): (r: ScanResult)
    requires t >= 0.0 && WellFormedInput(input)
    ensures !r.Crashed? ==> r.time > t
  {
    TriggerWaitMovesForward(input, ts, t, None);
    Scan(ts, StartQueue(input, ts, t, true), FreshTracker(ts))
  }

  /** The output buffers with one more frame on `"bytes"`. */
  function Emit(out: map<string, seq<Frame>>, f: Frame): map<string, seq<Frame>>
    requires "bytes" in out
  {
    out["bytes" := out["bytes"] + [f]]
  }

  /** Opening a frame on a channel without one and sealing it leaves the
      open frames as they were. */
  lemma {:induction false} OpenThenSeal(started: map<string, OpenFrame>, open: OpenFrame)
    requires "bytes" !in started
    ensures started["bytes" := open] - {"bytes"} == started
  {
  }

  /** The decoder is inside its body: the engine holds its input, and it
      declares the output `"bytes"`. */
  ghost predicate Running(dec: FrameDecoderStream)
    reads dec`currentInput, dec`currentOutput, dec`startedFrame, dec`timeOffset
    reads dec`timeSuspension, dec`triggerSuspension
  {
    dec.Valid() && dec.currentInput.Some? && "bytes" in dec.outputs
  }

  /** `await this.waitTrigger(ts)` with no flag table: the body goes on
      only when the call resolves, which it does at the time the scan
      fires, with the name of the condition that held and every
      channel's sample there. When the scan runs out of data the call
      flushes and keeps the trigger set with the flag table it reached;
      when nothing can be queued it throws, and nothing is kept. */
  method AwaitTrigger(dec: FrameDecoderStream, ts: TriggerSet)
    returns (ok: bool, cond: string, values: Entries<Option<real>>)
    requires Running(dec)
    modifies dec`timeOffset, dec`triggerSuspension, dec`emitted
    ensures Running(dec)
    ensures var s := FreshScan(dec.currentInput.value, ts, old(dec.timeOffset));
      (ok <==> s.Fire?)
      && (ok ==> dec.timeOffset == s.time && dec.emitted == old(dec.emitted)
                 && cond == s.cond && values == InputAtTime(dec.currentInput.value, s.time))
      && (!s.Suspend? ==> dec.triggerSuspension == old(dec.triggerSuspension))
      && (s.Suspend? ==> dec.triggerSuspension == Some(TriggerWait(ts, s.tracker)))
    ensures !ok ==> HandedOn(dec, old(Now(dec)))
  {
    var r := dec.WaitTrigger(ts, None);
    ok := r.Ready?;
    cond, values := if ok then r.value.0 else "", if ok then r.value.1 else [];
  }

  /** The engine fields a step starts from. */
  datatype Snapshot = Snapshot(time: real, out: map<string, seq<Frame>>,
                               started: map<string, OpenFrame>, emitted: seq<(string, seq<Frame>)>,
                               timeWait: Option<real>, triggerWait: Option<TriggerWait>)

  /** Neither suspension record has changed since `s0`. */
  ghost predicate SameWaits(dec: FrameDecoderStream, s0: Snapshot)
    reads dec`timeSuspension, dec`triggerSuspension
  {
    dec.timeSuspension == s0.timeWait && dec.triggerSuspension == s0.triggerWait
  }

  /** A step that ran to its end appended exactly the frame `f` to
      `"bytes"`, which had no open frame before and has none after, and the
      cursor stands at the end of `f`; nothing was handed on and no wait
      was recorded. */
  ghost predicate Appended(dec: FrameDecoderStream, s0: Snapshot, f: Frame)
    reads dec`currentOutput, dec`startedFrame, dec`timeOffset, dec`emitted
    reads dec`timeSuspension, dec`triggerSuspension
  {
    "bytes" in s0.out && "bytes" !in s0.started
    && dec.timeOffset == f.end
    && dec.currentOutput == Emit(s0.out, f)
    && dec.startedFrame == s0.started && dec.emitted == s0.emitted && SameWaits(dec, s0)
  }

  /** Since `s0` the decoder appended `frames` to `"bytes"` and nothing
      else: the cursor is at `time`, no frame is left open, nothing was
      handed on and both suspension records are as they were. */
  ghost predicate Did(dec: FrameDecoderStream, s0: Snapshot, frames: seq<Frame>, time: real)
    reads dec`currentOutput, dec`startedFrame, dec`timeOffset, dec`emitted
    reads dec`timeSuspension, dec`triggerSuspension
  {
    "bytes" in s0.out
    && dec.timeOffset == time
    && dec.currentOutput == s0.out["bytes" := s0.out["bytes"] + frames]
    && dec.startedFrame == s0.started && dec.emitted == s0.emitted && SameWaits(dec, s0)
  }

  /** The engine standing where `s0` and `frames` lead did them. */
  lemma {:induction false} DidNow(dec: FrameDecoderStream, s0: Snapshot, frames: seq<Frame>, time: real)
    requires "bytes" in s0.out
    requires Now(dec) == Snapshot(time, s0.out["bytes" := s0.out["bytes"] + frames], s0.started, s0.emitted,
                                  s0.timeWait, s0.triggerWait)
    ensures Did(dec, s0, frames, time)
  {
  }

  /** A step that appended one frame did that frame's `Did`. */
  lemma {:induction false} AppendedDid(dec: FrameDecoderStream, s0: Snapshot, f: Frame)
    requires Appended(dec, s0, f)
    ensures Did(dec, s0, [f], f.end)
  {
  }

  /** What a wait that did not resolve left since `s0`: when it threw,
      nothing handed on and both records as they were; when it suspended,
      one flush of the buffers as they stand, and a record of that wait
      in one of the two records, the other left as it was. */
  ghost predicate HandedOn(dec: FrameDecoderStream, s0: Snapshot)
    reads dec`currentOutput, dec`emitted, dec`timeSuspension, dec`triggerSuspension
  {
    (dec.emitted == s0.emitted && SameWaits(dec, s0))
    || (dec.emitted == s0.emitted + FlushLog(dec.outputs, dec.currentOutput)
        && ((dec.timeSuspension.Some? && dec.triggerSuspension == s0.triggerWait)
            || (dec.triggerSuspension.Some? && dec.timeSuspension == s0.timeWait)))
  }

  /** Since `s0` the decoder appended `frames` and perhaps more to
      `"bytes"`, then stopped at a wait that did not resolve: no other
      buffer changed, and what it handed on is one wait's. */
  ghost predicate Halted(dec: FrameDecoderStream, s0: Snapshot, frames: seq<Frame>)
    reads dec`currentOutput, dec`emitted, dec`timeSuspension, dec`triggerSuspension
  {
    "bytes" in s0.out && "bytes" in dec.currentOutput
    && dec.currentOutput == s0.out["bytes" := dec.currentOutput["bytes"]]
    && s0.out["bytes"] + frames <= dec.currentOutput["bytes"]
    && HandedOn(dec, s0)
  }

  /** A step that stopped before appending anything. */
  lemma {:induction false} HaltedAtOnce(dec: FrameDecoderStream, s0: Snapshot)
    requires "bytes" in s0.out && dec.currentOutput == s0.out && HandedOn(dec, s0)
    ensures Halted(dec, s0, [])
  {
    assert s0.out["bytes" := s0.out["bytes"]] == s0.out;
  }

  /** A step that stopped after the steps since `s0` appended `frames`
      and left the engine at `now`. */
  lemma {:induction false} HaltedAfter(dec: FrameDecoderStream, s0: Snapshot, now: Snapshot, frames: seq<Frame>)
    requires "bytes" in s0.out && now.out == s0.out["bytes" := s0.out["bytes"] + frames] && now.emitted == s0.emitted
    requires now.timeWait == s0.timeWait && now.triggerWait == s0.triggerWait
    requires Halted(dec, now, [])
    ensures Halted(dec, s0, frames)
  {
    assert now.out["bytes"] + [] == s0.out["bytes"] + frames;
  }

  /** A step that stopped after appending `longer` also stopped after
      appending any prefix of it. */
  lemma {:induction false} HaltedShorter(dec: FrameDecoderStream, s0: Snapshot, shorter: seq<Frame>, longer: seq<Frame>)
    requires shorter <= longer && Halted(dec, s0, longer)
    ensures Halted(dec, s0, shorter)
  {
    assert s0.out["bytes"] + shorter <= s0.out["bytes"] + longer;
  }

  /** The engine as it stands: the state a step starts from. */
  ghost function Now(dec: FrameDecoderStream): Snapshot
    reads dec`currentOutput, dec`startedFrame, dec`timeOffset, dec`emitted
    reads dec`timeSuspension, dec`triggerSuspension
  {
    Snapshot(dec.timeOffset, dec.currentOutput, dec.startedFrame, dec.emitted, dec.timeSuspension, dec.triggerSuspension)
  }

  /** Appending no frames changes nothing. */
  lemma {:induction false} NoFrames(out: map<string, seq<Frame>>)
    requires "bytes" in out
    ensures out["bytes" := out["bytes"] + []] == out
  {
    assert out["bytes"] + [] == out["bytes"];
  }

  /** `endFrame("bytes", data)` on the frame opened as `open`. */
  method Close(dec: FrameDecoderStream, data: Option<Label>, ghost open: OpenFrame)
    requires Running(dec) && "bytes" in dec.startedFrame && dec.startedFrame["bytes"] == open
    modifies dec`startedFrame, dec`currentOutput
    ensures Running(dec)
    ensures dec.currentOutput == Emit(old(dec.currentOutput), Seal(open, data, dec.timeOffset))
    ensures dec.startedFrame == old(dec.startedFrame) - {"bytes"}
  {
    var _ := dec.EndFrame("bytes", data);
  }

  /** `startFrame("bytes", data)` at the cursor: `ok` unless a frame is
      already open, the state the step starts from is `s0`. */
  method Open(dec: FrameDecoderStream, data: Option<Label>) returns (ok: bool, ghost s0: Snapshot)
    requires Running(dec)
    modifies dec`startedFrame
    ensures Running(dec)
    ensures s0 == Snapshot(dec.timeOffset, dec.currentOutput, old(dec.startedFrame), dec.emitted,
                           dec.timeSuspension, dec.triggerSuspension)
    ensures ok <==> "bytes" !in s0.started
    ensures ok ==> dec.startedFrame == s0.started["bytes" := OpenFrame(s0.time, data)]
    ensures !ok ==> dec.startedFrame == s0.started
  {
    s0 := Snapshot(dec.timeOffset, dec.currentOutput, dec.startedFrame, dec.emitted,
                   dec.timeSuspension, dec.triggerSuspension);
    var o := dec.StartFrame("bytes", data);
    ok := o.Pass?;
  }

  /** The answers of fresh waits on one input, by trigger set and cursor:
      what a decoder body sees of the engine's scan. */
  type Waits = (TriggerSet, real) -> ScanResult

  /** `w` answers every fresh wait on `input` as the engine's scan does. */
  ghost predicate WaitsOn(w: Waits, input: Entries<Waveform>)
    requires WellFormedInput(input)
  {
    forall ts, t {:trigger FreshScan(input, ts, t)} :: t >= 0.0 ==> w(ts, t) == FreshScan(input, ts, t)
  }

  /** Every wait that resolves stops strictly after the cursor. */
  ghost predicate Forward(w: Waits) {
    forall ts, t :: t >= 0.0 && !w(ts, t).Crashed? ==> w(ts, t).time > t
  }

  /** The engine's own waits on `input`. */
  ghost function EngineWaits(input: Entries<Waveform>): (w: Waits)
    requires WellFormedInput(input)
    ensures WaitsOn(w, input) && Forward(w)
  {
    var w := (ts: TriggerSet, t: real) => if t >= 0.0 then FreshScan(input, ts, t) else Crashed;
    assert Forward(w) by {
      forall ts, t | t >= 0.0 && !w(ts, t).Crashed?
        ensures w(ts, t).time > t
      {
        assert w(ts, t) == FreshScan(input, ts, t);
      }
    }
    w
  }

  /** The decoder is in its body, and `w` answers its waits. */
  ghost predicate Decoding(dec: FrameDecoderStream, w: Waits)
    reads dec`currentInput, dec`currentOutput, dec`startedFrame, dec`timeOffset
    reads dec`timeSuspension, dec`triggerSuspension
  {
    Running(dec) && WaitsOn(w, dec.currentInput.value) && Forward(w)
  }

  /** `await this.waitTrigger(ts)`, stated through the waits `w` of the
      current input. */
  method AwaitWith(dec: FrameDecoderStream, ts: TriggerSet, ghost w: Waits)
    returns (ok: bool, cond: string, values: Entries<Option<real>>)
    requires Running(dec) && WaitsOn(w, dec.currentInput.value)
    modifies dec`timeOffset, dec`triggerSuspension, dec`emitted
    ensures Running(dec)
    ensures var s := w(ts, old(dec.timeOffset));
      (ok <==> s.Fire?)
      && (ok ==> dec.timeOffset == s.time && dec.emitted == old(dec.emitted)
                 && cond == s.cond && values == InputAtTime(dec.currentInput.value, s.time))
      && (!s.Suspend? ==> dec.triggerSuspension == old(dec.triggerSuspension))
      && (s.Suspend? ==> dec.triggerSuspension == Some(TriggerWait(ts, s.tracker)))
    ensures !ok ==> HandedOn(dec, old(Now(dec)))
  {
    ok, cond, values := AwaitTrigger(dec, ts);
  }
}
