/** The I2C decoder (src/streams/decoder/serial/I2C.ts): a state machine
    on the SCL and SDA lines that finds the START condition, reads each
    byte at the rising clock edges, tells a STOP and a repeated START from
    a byte, splits the first byte into address and direction, and labels
    each acknowledge bit. */
module I2C {
  import opened Wrappers
  import opened Util
  import opened Waveforms
  import opened Triggers
  import opened Scheduler
  import opened FrameDecoder
  import opened Bits
  import opened DecoderSteps

  /** `"wait_idle" | "wait_start" | "read_byte" | "wait_ack"` */
  datatype I2cState = WaitIdle | WaitStart | ReadByte | WaitAck

  /** `{"IDLE": {"sda": "high", "scl": "high"}}` (line 51) */
  function IdleSet(): TriggerSet {
    [("IDLE", [("sda", OnBinary(IsHigh)), ("scl", OnBinary(IsHigh))])]
  }

  /** `{"START": {"sda": "falling", "scl": "high"}}` (line 56) */
  function StartSet(): TriggerSet {
    [("START", [("sda", OnBinary(Falling)), ("scl", OnBinary(IsHigh))])]
  }

  /** `{"SCL_L": {"scl": "low"}}` (lines 58, 78 and 104) */
  function SclLow(): TriggerSet {
    [("SCL_L", [("scl", OnBinary(IsLow))])]
  }

  /** `{"SCL_R": {"scl": "rising"}}` (lines 64 and 84) */
  function SclRising(): TriggerSet {
    [("SCL_R", [("scl", OnBinary(Rising))])]
  }

  /** The three conditions of lines 67-71 that follow the first bit. */
  function AfterFirstBit(): TriggerSet {
    [("NEXT_BYTE", [("scl", OnBinary(Falling))]),
     ("REP_START", [("sda", OnBinary(Falling))]),
     ("STOP", [("sda", OnBinary(Rising))])]
  }

  /** `{"SCL_F": {"scl": "falling"}}` (line 93) */
  function SclFalling(): TriggerSet {
    [("SCL_F", [("scl", OnBinary(Falling))])]
  }

  /** `{"ACK": {"scl": "rising"}}` (line 102) */
  function AckSet(): TriggerSet {
    [("ACK", [("scl", OnBinary(Rising))])]
  }

  /** `input.sda === 0 ? "ACK" : "NACK"` */
  function AckLabel(sda: Option<real>): (s: string)
    ensures s == "ACK" <==> sda == Some(0.0)
  {
    if sda == Some(0.0) then "ACK" else "NACK"
  }

  /** `inputValues.sda === 1 ? "R" : "W"`, for the bit read from SDA. */
  function DirectionLabel(bit: Bit): (s: string)
    ensures s == "R" <==> bit == 1
  {
    if bit == 1 then "R" else "W"
  }

  /** The time of the last of `times`, or `t` when there is none. */
  function Last(t: real, times: seq<real>): real {
    if times == [] then t else times[|times| - 1]
  }

  /** The times of the next `n` rising edges of SCL after `t`, each found
      by a fresh wait from the one before; fewer when a wait does not
      resolve. */
  function Rises(w: Waits, t: real, n: nat): (times: seq<real>)
    requires t >= 0.0 && Forward(w)
    ensures |times| <= n
    ensures forall k :: 0 <= k < |times| ==> times[k] > t
    decreases n
  {
    if n == 0 then []
    else
      var prev := Rises(w, t, n - 1);
      if |prev| < n - 1 then prev
      else
        var s := w(SclRising(), Last(t, prev));
        if s.Fire? then prev + [s.time] else prev
  }

  /** Once a wait for a rising edge does not resolve, no later one is made. */
  lemma {:induction false} RisesStop(w: Waits, t: real, k: nat, n: nat)
    requires t >= 0.0 && Forward(w)
    requires k <= n && |Rises(w, t, k)| < k
    ensures Rises(w, t, n) == Rises(w, t, k)
    decreases n
  {
    if n > k {
      RisesStop(w, t, k, n - 1);
    }
  }

  /** SDA read as a bit at each of `times`. */
  function SdaBits(input: Entries<Waveform>, times: seq<real>): (bits: seq<Bit>)
    ensures |bits| == |times|
    ensures forall k :: 0 <= k < |times| ==> bits[k] == ToBit(LineAt(input, "sda", times[k]))
  {
    if times == [] then []
    else SdaBits(input, times[..|times| - 1]) + [ToBit(LineAt(input, "sda", times[|times| - 1]))]
  }

  /** `c | (1 << k)` for an even `c` shifted up by `k`: the new bit lands
      just below the ones already there. */
  lemma {:induction false} OrPow(c: nat, k: nat)
    requires c % 2 == 0
    ensures BitOr(c * Pow2(k), Pow2(k)) == (c + 1) * Pow2(k)
    decreases k
  {
    if k > 0 {
      var q := Pow2(k - 1);
      assert Pow2(k) == 2 * q;
      assert c * Pow2(k) == 2 * (c * q);
      assert (c + 1) * Pow2(k) == 2 * ((c + 1) * q);
      OrPow(c, k - 1);
    }
  }

  /** `bit << k` */
  function Shl(bit: Bit, k: nat): nat {
    if bit == 1 then Pow2(k) else 0
  }

  /** `byte |= bit << k` on a byte whose bits below `k + 1` are clear:
      the bit lands at position `k`, below the ones already read. */
  lemma {:induction false} OrNextBit(m: nat, bit: Bit, k: nat)
    ensures BitOr(m * Pow2(k + 1), Shl(bit, k)) == (2 * m + bit) * Pow2(k)
  {
    var q := Pow2(k);
    assert m * Pow2(k + 1) == (2 * m) * q;
    if bit == 0 {
      assert (2 * m + bit) * q == (2 * m) * q;
    } else {
      OrPow(2 * m, k);
    }
  }

  /** Lines 87-89: the first seven bits of the first byte are the address,
      `byte >> 1`, and the eighth is the direction. */
  lemma {:induction false} AddressSplit(bits: seq<Bit>)
    requires |bits| == 8
    ensures FoldMsb(bits) / 2 == FoldMsb(bits[..7]) && FoldMsb(bits) % 2 == bits[7]
    ensures FoldMsb(bits) < 256 && FoldMsb(bits[..7]) < 128
  {
    assert Pow2(8) == 256 && Pow2(7) == 128;
  }

  /** What one case of the `switch` of lines 48-108 does when it runs to
      its end: the state it leaves, the frames it appends to `"bytes"` in
      order, where it leaves the cursor, and `waitAddr` after it. */
  datatype CaseResult = CaseResult(next: I2cState, frames: seq<Frame>, time: real, waitAddr: bool)

  /** Frames that follow one another in time from `t` on, each starting
      no later than it ends, the last ending no later than `end`. */
  predicate InOrder(frames: seq<Frame>, t: real, end: real) {
    (forall i :: 0 <= i < |frames| ==> t <= frames[i].start <= frames[i].end <= end)
    && (forall i :: 0 <= i < |frames| - 1 ==> frames[i].end <= frames[i + 1].start)
  }

  /** One frame within a span. */
  lemma {:induction false} InOrderOne(f: Frame, t: real, end: real)
    requires t <= f.start <= f.end <= end
    ensures InOrder([f], t, end)
  {
  }

  /** Two frames one after the other within a span. */
  lemma {:induction false} InOrderTwo(f: Frame, g: Frame, t: real, end: real)
    requires t <= f.start <= f.end <= g.start <= g.end <= end
    ensures InOrder([f, g], t, end)
  {
  }

  /** Frames in order from some time are in order from any earlier time. */
  lemma {:induction false} InOrderFrom(frames: seq<Frame>, t: real, t': real, end: real)
    requires t <= t' && InOrder(frames, t', end)
    ensures InOrder(frames, t, end)
  {
  }

  /** Frames in order over one span, then frames in order over the next. */
  lemma {:induction false} InOrderConcat(a: seq<Frame>, b: seq<Frame>, t0: real, t1: real, t2: real)
    requires InOrder(a, t0, t1) && InOrder(b, t1, t2) && t0 <= t1 <= t2
    ensures InOrder(a + b, t0, t2)
  {
    var ab := a + b;
    forall i | 0 <= i < |ab| - 1
      ensures ab[i].end <= ab[i + 1].start
    {
      if i + 1 < |a| {
        assert ab[i] == a[i] && ab[i + 1] == a[i + 1];
      } else if i + 1 == |a| {
        assert ab[i] == a[i] && ab[i + 1] == b[0];
      } else {
        assert ab[i] == b[i - |a|] && ab[i + 1] == b[i - |a| + 1];
      }
    }
  }

  /** `wait_idle` (lines 49-53): wait for both lines high. */
  function IdleSpec(w: Waits, t: real, waitAddr: bool): (r: Option<CaseResult>)
    requires t >= 0.0 && Forward(w)
    ensures r.Some? ==> r.value.time > t && InOrder(r.value.frames, t, r.value.time)
  {
    var s := w(IdleSet(), t);
    if s.Fire? then Some(CaseResult(WaitStart, [], s.time, waitAddr)) else None
  }

  /** `wait_start` (lines 54-61): SDA falls while SCL is high; the frame
      `"START"` runs from there to the next sample with SCL low. */
  function StartSpec(w: Waits, t: real, waitAddr: bool): (r: Option<CaseResult>)
    requires t >= 0.0 && Forward(w)
    ensures r.Some? ==> r.value.time > t && InOrder(r.value.frames, t, r.value.time)
  {
    var s := w(StartSet(), t);
    if !s.Fire? then None
    else
      var low := w(SclLow(), s.time);
      if !low.Fire? then None
      else Some(CaseResult(ReadByte, [Frame(Some(Text("START")), s.time, low.time)], low.time, waitAddr))
  }

  /** The eight bits of a byte whose first bit was read at `first`, the
      other seven at the next rising edges of SCL after `after`. */
  function ByteBits(w: Waits, input: Entries<Waveform>, first: real, after: real): (bits: seq<Bit>)
    requires after >= 0.0 && Forward(w)
    ensures |bits| == 1 + |Rises(w, after, 7)|
  {
    SdaBits(input, [first] + Rises(w, after, 7))
  }

  /** Lines 83-100: the seven more bits, then SCL falling ends the byte.
      The first byte is split into an address frame up to the last
      rising edge and a direction frame after it; a later byte is one
      frame labelled with its value. Either way the next byte is data. */
  function ByteSpec(w: Waits, input: Entries<Waveform>, first: real, after: real, waitAddr: bool): (r: Option<CaseResult>)
    requires 0.0 <= first <= after && Forward(w)
    ensures r.Some? ==> r.value.time > after && InOrder(r.value.frames, first, r.value.time)
    ensures r.Some? ==> r.value.next == WaitAck && !r.value.waitAddr
  {
    var rises := Rises(w, after, 7);
    if |rises| < 7 then None
    else
      var bits := ByteBits(w, input, first, after);
      var byte := FoldMsb(bits);
      var fall := w(SclFalling(), rises[6]);
      if !fall.Fire? then None
      else if waitAddr then
        InOrderTwo(Seal(OpenFrame(first, None), Some(Num(byte / 2)), rises[6]),
                   Frame(Some(Text(DirectionLabel(bits[7]))), rises[6], fall.time), first, fall.time);
        Some(CaseResult(WaitAck,
                        [Seal(OpenFrame(first, None), Some(Num(byte / 2)), rises[6]),
                         Frame(Some(Text(DirectionLabel(bits[7]))), rises[6], fall.time)],
                        fall.time, false))
      else
        InOrderOne(Seal(OpenFrame(first, None), Some(Num(byte)), fall.time), first, fall.time);
        Some(CaseResult(WaitAck, [Seal(OpenFrame(first, None), Some(Num(byte)), fall.time)], fall.time, false))
  }

  /** Lines 83-98 read the byte most significant bit first: a data byte
      is below 256 and has bit `7 - i` set exactly when SDA was high at the
      `i`-th rising edge. The first byte of a run is split instead: its
      top seven bits give the address (`byte >> 1`), its last bit the
      direction, `"R"` when SDA was high and `"W"` when low. A zero label
      leaves the frame unlabelled, as `endFrame` ignores falsy data. */
  lemma {:induction false} ByteFrames(w: Waits, input: Entries<Waveform>, first: real, after: real, waitAddr: bool)
    requires 0.0 <= first <= after && Forward(w)
    requires ByteSpec(w, input, first, after, waitAddr).Some?
    ensures var bits := ByteBits(w, input, first, after);
            var frames := ByteSpec(w, input, first, after, waitAddr).value.frames;
            |bits| == 8
            && (waitAddr ==>
                  var addr := FoldMsb(bits[..7]);
                  |frames| == 2 && addr < 128 && frames[0].end == frames[1].start
                  && frames[0].data == (if addr != 0 then Some(Num(addr)) else None)
                  && frames[1].data == Some(Text(if bits[7] == 1 then "R" else "W")))
            && (!waitAddr ==>
                  var byte := FoldMsb(bits);
                  |frames| == 1 && byte < 256
                  && (forall i :: 0 <= i < 8 ==> (TestBit(byte, 7 - i) <==> bits[i] == 1))
                  && frames[0].data == (if byte != 0 then Some(Num(byte)) else None))
  {
    var bits := ByteBits(w, input, first, after);
    AddressSplit(bits);
    if !waitAddr {
      forall i | 0 <= i < 8
        ensures TestBit(FoldMsb(bits), 7 - i) <==> bits[i] == 1
      {
        FoldMsbBit(bits, 7 - i);
      }
    }
  }

  /** The address byte of the example in the comment of lines 26-33: the
      bits 1010111 then 0 read as address 0x57, for writing. */
  lemma {:induction false} ExampleAddress()
    ensures FoldMsb([1, 0, 1, 0, 1, 1, 1, 0][..7]) == 0x57 && DirectionLabel(0) == "W"
  {
    var address: seq<Bit> := [1, 0, 1, 0, 1, 1, 1, 0];
    assert address[..7] == [1, 0, 1, 0, 1, 1, 1];
    assert ToBitsMsb(0x57, 7) == [1, 0, 1, 0, 1, 1, 1];
    SplitThenFold(0x57, 7);
  }

  /** The data byte of the same example: the bits 10111000 read as 0xb8. */
  lemma {:induction false} ExampleData()
    ensures FoldMsb([1, 0, 1, 1, 1, 0, 0, 0]) == 0xb8
  {
    assert ToBitsMsb(0xb8, 8) == [1, 0, 1, 1, 1, 0, 0, 0];
    SplitThenFold(0xb8, 8);
  }

  /** Lines 78-80: a repeated START seals the frame opened at `first` as
      `"RS"` at the next sample with SCL low, and the next byte is read. */
  function RestartSpec(w: Waits, first: real, after: real, waitAddr: bool): (r: Option<CaseResult>)
    requires 0.0 <= first <= after && Forward(w)
    ensures r.Some? ==> r.value.time > after && InOrder(r.value.frames, first, r.value.time)
  {
    var low := w(SclLow(), after);
    if !low.Fire? then None
    else
      InOrderOne(Frame(Some(Text("RS")), first, low.time), first, low.time);
      Some(CaseResult(ReadByte, [Frame(Some(Text("RS")), first, low.time)], low.time, waitAddr))
  }

  /** Lines 67-81, after the first bit was read at `first`: whichever of
      SCL falling, SDA falling and SDA rising comes first. A STOP seals
      the frame as `"STOP"` where it is seen. */
  function AfterFirstBitSpec(w: Waits, input: Entries<Waveform>, first: real, waitAddr: bool): (r: Option<CaseResult>)
    requires 0.0 <= first && Forward(w)
    ensures r.Some? ==> r.value.time > first && InOrder(r.value.frames, first, r.value.time)
  {
    var c := w(AfterFirstBit(), first);
    if !c.Fire? then None
    else if c.cond == "STOP" then
      InOrderOne(Frame(Some(Text("STOP")), first, c.time), first, c.time);
      Some(CaseResult(WaitStart, [Frame(Some(Text("STOP")), first, c.time)], c.time, waitAddr))
    else if c.cond == "REP_START" then RestartSpec(w, first, c.time, waitAddr)
    else ByteSpec(w, input, first, c.time, waitAddr)
  }

  /** `read_byte` (lines 62-100): read the first bit at a rising edge of
      SCL and open a frame there, then go on as the next condition says. */
  function ReadByteSpec(w: Waits, input: Entries<Waveform>, t: real, waitAddr: bool): (r: Option<CaseResult>)
    requires t >= 0.0 && Forward(w)
    ensures r.Some? ==> r.value.time > t && InOrder(r.value.frames, t, r.value.time)
  {
    var first := w(SclRising(), t);
    if !first.Fire? then None
    else
      var r := AfterFirstBitSpec(w, input, first.time, waitAddr);
      if r.Some? then
        InOrderFrom(r.value.frames, t, first.time, r.value.time);
        r
      else r
  }

  /** `wait_ack` (lines 101-107): the acknowledge bit at the next rising
      edge of SCL, in a frame up to the next sample with SCL low. */
  function AckSpec(w: Waits, input: Entries<Waveform>, t: real, waitAddr: bool): (r: Option<CaseResult>)
    requires t >= 0.0 && Forward(w)
    ensures r.Some? ==> r.value.time > t && InOrder(r.value.frames, t, r.value.time)
  {
    var s := w(AckSet(), t);
    if !s.Fire? then None
    else
      var low := w(SclLow(), s.time);
      if !low.Fire? then None
      else
        Some(CaseResult(ReadByte, [Frame(Some(Text(AckLabel(LineAt(input, "sda", s.time)))), s.time, low.time)],
                        low.time, waitAddr))
  }

  /** One case of the `switch`, for the state `fsm`, with the cursor at `t`. */
  function StepSpec(w: Waits, input: Entries<Waveform>, fsm: I2cState, t: real, waitAddr: bool): (r: Option<CaseResult>)
    requires t >= 0.0 && Forward(w)
    ensures r.Some? ==> r.value.time > t && InOrder(r.value.frames, t, r.value.time)
    ensures r.Some? ==> r.value.waitAddr == (waitAddr && r.value.next != WaitAck)
  {
    match fsm
    case WaitIdle => IdleSpec(w, t, waitAddr)
    case WaitStart => StartSpec(w, t, waitAddr)
    case ReadByte => ReadByteSpec(w, input, t, waitAddr)
    case WaitAck => AckSpec(w, input, t, waitAddr)
  }

  /** The outcomes of single cases on one input, by state, cursor and
      `waitAddr` */
  type Steps = (I2cState, real, bool) -> Option<CaseResult>

  /** `st` answers as `StepSpec` does from every cursor not before 0 */
  ghost predicate StepsOf(st: Steps, w: Waits, input: Entries<Waveform>)
    requires Forward(w)
  {
    forall fsm, t, waitAddr {:trigger StepSpec(w, input, fsm, t, waitAddr)} ::
      t >= 0.0 ==> st(fsm, t, waitAddr) == StepSpec(w, input, fsm, t, waitAddr)
  }

  /** Every case that runs to its end moves the cursor forward and leaves
      its frames in order */
  ghost predicate Advancing(st: Steps)
  {
    forall fsm, t, waitAddr :: t >= 0.0 && st(fsm, t, waitAddr).Some? ==>
      st(fsm, t, waitAddr).value.time > t && InOrder(st(fsm, t, waitAddr).value.frames, t, st(fsm, t, waitAddr).value.time)
  }

  /** The cases of the decoder on `input` */
  ghost function EngineSteps(w: Waits, input: Entries<Waveform>): (st: Steps)
    requires Forward(w)
    ensures StepsOf(st, w, input) && Advancing(st)
  {
    var st := (fsm: I2cState, t: real, waitAddr: bool) => if t >= 0.0 then StepSpec(w, input, fsm, t, waitAddr) else None;
    assert Advancing(st) by {
      forall fsm, t, waitAddr | t >= 0.0 && st(fsm, t, waitAddr).Some?
        ensures st(fsm, t, waitAddr).value.time > t
             && InOrder(st(fsm, t, waitAddr).value.frames, t, st(fsm, t, waitAddr).value.time)
      {
        assert st(fsm, t, waitAddr) == StepSpec(w, input, fsm, t, waitAddr);
      }
    }
    st
  }

  /** Where `frameDecode` stands after some cases: the state, the frames
      appended so far, the cursor, `waitAddr`, and whether a case has
      stopped short. */
  datatype Progress = Progress(fsm: I2cState, frames: seq<Frame>, time: real, waitAddr: bool, stopped: bool)

  /** `n` turns of the `while (true)` of lines 47-109 from `p0`, each case
      answered by `st`; once a case stops short nothing more happens. */
  function RunSpec(st: Steps, p0: Progress, n: nat): (p: Progress)
    requires p0.time >= 0.0 && Advancing(st)
    ensures p.time >= p0.time
    decreases n
  {
    if n == 0 then p0
    else
      var prev := RunSpec(st, p0, n - 1);
      if prev.stopped then prev
      else
        match st(prev.fsm, prev.time, prev.waitAddr)
        case None => prev.(stopped := true)
        case Some(r) => Progress(r.next, prev.frames + r.frames, r.time, r.waitAddr, false)
  }

  /** The frames `frameDecode` appends follow one another in time, each
      starting no later than it ends, all within the time it has run. */
  lemma {:induction false} RunInOrder(st: Steps, p0: Progress, n: nat)
    requires p0.time >= 0.0 && Advancing(st) && p0.frames == []
    ensures InOrder(RunSpec(st, p0, n).frames, p0.time, RunSpec(st, p0, n).time)
  {
    if n > 0 {
      RunInOrder(st, p0, n - 1);
      var prev := RunSpec(st, p0, n - 1);
      if !prev.stopped {
        var r := st(prev.fsm, prev.time, prev.waitAddr);
        if r.Some? {
          InOrderConcat(prev.frames, r.value.frames, p0.time, prev.time, r.value.time);
        }
      }
    }
  }

  /** Once a case has stopped short, the run stays where it stopped. */
  lemma {:induction false} RunStays(st: Steps, p0: Progress, k: nat, n: nat)
    requires p0.time >= 0.0 && Advancing(st)
    requires k <= n && RunSpec(st, p0, k).stopped
    ensures RunSpec(st, p0, n) == RunSpec(st, p0, k)
    decreases n
  {
    if n > k {
      RunStays(st, p0, k, n - 1);
    }
  }

  /** `waitAddr` is set only when `frameDecode` starts (line 44) and a
      byte read to its end clears it (line 95): once a turn has left it
      false, every later turn finds it false, so only the first byte of
      the run is taken for an address. */
  lemma {:induction false} AddressOnlyOnce(st: Steps, w: Waits, input: Entries<Waveform>, p0: Progress, k: nat, n: nat)
    requires Forward(w) && StepsOf(st, w, input) && Advancing(st) && p0.time >= 0.0
    requires k <= n && !RunSpec(st, p0, k).waitAddr
    ensures !RunSpec(st, p0, n).waitAddr
    decreases n
  {
    if n > k {
      AddressOnlyOnce(st, w, input, p0, k, n - 1);
      var prev := RunSpec(st, p0, n - 1);
      if !prev.stopped {
        assert st(prev.fsm, prev.time, prev.waitAddr) == StepSpec(w, input, prev.fsm, prev.time, prev.waitAddr);
      }
    }
  }

  /** `await this.waitTrigger(ts)` then `endFrame("bytes", data)` on the
      frame opened as `open`: the frame ends where the wait stops. */
  method SealAt(dec: FrameDecoderStream, ghost w: Waits, ts: TriggerSet, data: Option<Label>, ghost s0: Snapshot,
                ghost open: OpenFrame)
    returns (ok: bool)
    requires Decoding(dec, w) && "bytes" !in s0.started
    requires dec.startedFrame == s0.started["bytes" := open]
    requires dec.currentOutput == s0.out && dec.emitted == s0.emitted && SameWaits(dec, s0)
    modifies dec`timeOffset, dec`triggerSuspension, dec`emitted, dec`startedFrame, dec`currentOutput
    ensures Decoding(dec, w)
    ensures var s := w(ts, old(dec.timeOffset));
      (ok <==> s.Fire?) && (ok ==> Appended(dec, s0, Seal(open, data, s.time)))
    ensures !ok ==> Halted(dec, s0, [])
  {
    var cond, values;
    ok, cond, values := AwaitWith(dec, ts, w);
    if ok {
      OpenThenSeal(s0.started, open);
      Close(dec, data, open);
    } else {
      HaltedAtOnce(dec, s0);
    }
  }

  /** `wait_start` (lines 54-61). */
  method StartCase(dec: FrameDecoderStream, ghost w: Waits, waitAddr: bool, ghost s0: Snapshot) returns (ok: bool)
    requires Decoding(dec, w) && s0 == Now(dec)
    modifies dec`timeOffset, dec`triggerSuspension, dec`emitted, dec`startedFrame, dec`currentOutput
    ensures Decoding(dec, w)
    ensures "bytes" !in s0.started ==>
      var r := StartSpec(w, s0.time, waitAddr);
      (ok <==> r.Some?) && (ok ==> Did(dec, s0, r.value.frames, r.value.time))
      && (!ok ==> Halted(dec, s0, []))
  {
    var cond, values;
    ok, cond, values := AwaitWith(dec, StartSet(), w);
    if !ok {
      HaltedAtOnce(dec, s0);
      return;
    }
    ghost var s1;
    ok, s1 := FrameToLow(dec, w, "START");
  }

  /** `wait_ack` (lines 101-107): the label is read from SDA at the rising
      edge of SCL, where the frame opens. */
  method AckCase(dec: FrameDecoderStream, ghost w: Waits, waitAddr: bool, ghost s0: Snapshot) returns (ok: bool)
    requires Decoding(dec, w) && s0 == Now(dec)
    modifies dec`timeOffset, dec`triggerSuspension, dec`emitted, dec`startedFrame, dec`currentOutput
    ensures Decoding(dec, w)
    ensures "bytes" !in s0.started ==>
      var r := AckSpec(w, dec.currentInput.value, s0.time, waitAddr);
      (ok <==> r.Some?) && (ok ==> Did(dec, s0, r.value.frames, r.value.time))
      && (!ok ==> Halted(dec, s0, []))
  {
    ghost var input := dec.currentInput.value;
    var cond, values;
    ok, cond, values := AwaitWith(dec, AckSet(), w);
    if !ok {
      HaltedAtOnce(dec, s0);
      return;
    }
    LineAtRead(input, "sda", dec.timeOffset);
    var ack := AckLabel(Read(values, "sda"));
    ghost var s1;
    ok, s1 := FrameToLow(dec, w, ack);
  }

  /** `startFrame("bytes", name)`, `await this.waitTrigger(SCL_LOW)`, then
      `endFrame("bytes")`: one frame labelled `name` from the cursor to
      the next low level of SCL. */
  method FrameToLow(dec: FrameDecoderStream, ghost w: Waits, name: string) returns (ok: bool, ghost s1: Snapshot)
    requires Decoding(dec, w)
    modifies dec`timeOffset, dec`triggerSuspension, dec`emitted, dec`startedFrame, dec`currentOutput
    ensures Decoding(dec, w)
    ensures s1 == old(Now(dec))
    ensures "bytes" !in s1.started ==>
      var low := w(SclLow(), s1.time);
      (ok <==> low.Fire?)
      && (ok ==> Did(dec, s1, [Frame(Some(Text(name)), s1.time, low.time)], low.time))
      && (!ok ==> Halted(dec, s1, []))
  {
    ok, s1 := Open(dec, Some(Text(name)));
    if !ok {
      return;
    }
    ok := SealAt(dec, w, SclLow(), None, s1, OpenFrame(s1.time, Some(Text(name))));
  }

  /** Line 84: the `i`-th further rising edge of SCL, and SDA there. */
  method NextRise(dec: FrameDecoderStream, ghost w: Waits, ghost c: real, ghost i: nat)
    returns (ok: bool, bit: Bit)
    requires Decoding(dec, w) && c >= 0.0 && i >= 1
    requires |Rises(w, c, i - 1)| == i - 1 && dec.timeOffset == Last(c, Rises(w, c, i - 1))
    modifies dec`timeOffset, dec`triggerSuspension, dec`emitted
    ensures Decoding(dec, w)
    ensures ok <==> |Rises(w, c, i)| == i
    ensures ok ==> Rises(w, c, i) == Rises(w, c, i - 1) + [dec.timeOffset] && dec.emitted == old(dec.emitted)
                   && dec.triggerSuspension == old(dec.triggerSuspension)
                   && bit == ToBit(LineAt(dec.currentInput.value, "sda", dec.timeOffset))
    ensures !ok ==> HandedOn(dec, old(Now(dec)))
  {
    var cond, values;
    ok, cond, values := AwaitWith(dec, SclRising(), w);
    LineAtRead(dec.currentInput.value, "sda", dec.timeOffset);
    bit := ToBit(Read(values, "sda"));
  }

  /** `byte |= sda << (7 - i)` keeps the byte equal to the bits read so
      far, each shifted to its place. */
  lemma {:induction false} ShiftStep(input: Entries<Waveform>, times: seq<real>, i: nat, t: real, byte: nat, bit: Bit)
    requires 1 <= i <= 7 && |times| == i
    requires byte == FoldMsb(SdaBits(input, times)) * Pow2(8 - i)
    requires bit == ToBit(LineAt(input, "sda", t))
    ensures BitOr(byte, Shl(bit, 7 - i)) == FoldMsb(SdaBits(input, times + [t])) * Pow2(7 - i)
    ensures bit == SdaBits(input, times + [t])[i]
  {
    var bits := SdaBits(input, times);
    var m, k := FoldMsb(bits), 7 - i;
    assert SdaBits(input, times + [t]) == bits + [bit] by {
      assert (times + [t])[..|times|] == times;
    }
    assert FoldMsb(bits + [bit]) == 2 * m + bit by {
      assert (bits + [bit])[..|bits|] == bits;
    }
    assert BitOr(byte, Shl(bit, k)) == (2 * m + bit) * Pow2(k) by {
      OrNextBit(m, bit, k);
    }
  }

  /** Lines 83-86: the seven further bits, each read from SDA at the next
      rising edge of SCL and or-ed in below the ones before, the first bit
      being already in place as `sda << 7`. `lastBit` is the eighth bit. */
  method ShiftInByte(dec: FrameDecoderStream, ghost w: Waits, ghost first: real, ghost c: real,
                     ghost s0: Snapshot, byte0: nat)
    returns (ok: bool, byte: nat, lastBit: Bit)
    requires Decoding(dec, w) && dec.emitted == s0.emitted && SameWaits(dec, s0)
    requires 0.0 <= first <= c && dec.timeOffset == c
    requires byte0 == Shl(ToBit(LineAt(dec.currentInput.value, "sda", first)), 7)
    modifies dec`timeOffset, dec`triggerSuspension, dec`emitted
    ensures Decoding(dec, w) && dec.currentInput == old(dec.currentInput)
    ensures ok <==> |Rises(w, c, 7)| == 7
    ensures ok ==> dec.timeOffset == Rises(w, c, 7)[6] && dec.emitted == s0.emitted && SameWaits(dec, s0)
                   && byte == FoldMsb(ByteBits(w, dec.currentInput.value, first, c))
                   && lastBit == ByteBits(w, dec.currentInput.value, first, c)[7]
    ensures !ok ==> HandedOn(dec, s0)
  {
    ghost var input := dec.currentInput.value;
    byte, lastBit := byte0, 0;
    ShiftedFirst(w, input, first, c, byte);
    for i := 1 to 8
      invariant Decoding(dec, w) && dec.currentInput == Some(input) && dec.emitted == s0.emitted && SameWaits(dec, s0)
      invariant Shifted(w, input, first, c, i, dec.timeOffset, byte, lastBit)
    {
      var ok';
      ok', byte, lastBit := ShiftInNext(dec, w, first, c, i, byte, lastBit, s0);
      if !ok' {
        ok := false;
        return;
      }
    }
    ShiftedAll(w, input, first, c, dec.timeOffset, byte, lastBit);
    ok := true;
  }

  /** Before the loop only the first bit is in, at the top of the byte. */
  lemma {:induction false} ShiftedFirst(w: Waits, input: Entries<Waveform>, first: real, c: real, byte: nat)
    requires 0.0 <= first <= c && Forward(w)
    requires byte == Shl(ToBit(LineAt(input, "sda", first)), 7)
    ensures Shifted(w, input, first, c, 1, c, byte, 0)
  {
    assert SdaBits(input, [first] + Rises(w, c, 0)) == [ToBit(LineAt(input, "sda", first))];
    assert Pow2(7) == 128;
  }

  /** After the loop all eight bits are in: the byte is the fold of the
      levels at the first bit and the seven rising edges. */
  lemma {:induction false} ShiftedAll(w: Waits, input: Entries<Waveform>, first: real, c: real, t: real, byte: nat, lastBit: Bit)
    requires 0.0 <= first <= c && Forward(w)
    requires Shifted(w, input, first, c, 8, t, byte, lastBit)
    ensures |Rises(w, c, 7)| == 7 && t == Rises(w, c, 7)[6]
    ensures byte == FoldMsb(ByteBits(w, input, first, c)) && lastBit == ByteBits(w, input, first, c)[7]
  {
    assert Pow2(0) == 1;
  }

  /** Lines 84-86 for the `i`-th further bit: the next rising edge of
      SCL, and SDA there or-ed in at its place. */
  method ShiftInNext(dec: FrameDecoderStream, ghost w: Waits, ghost first: real, ghost c: real, i: nat,
                     byte: nat, lastBit: Bit, ghost s0: Snapshot)
    returns (ok: bool, byte': nat, lastBit': Bit)
    requires Decoding(dec, w) && 0.0 <= first <= c && 1 <= i <= 7
    requires Shifted(w, dec.currentInput.value, first, c, i, dec.timeOffset, byte, lastBit)
    requires dec.emitted == s0.emitted && SameWaits(dec, s0)
    modifies dec`timeOffset, dec`triggerSuspension, dec`emitted
    ensures Decoding(dec, w) && dec.currentInput == old(dec.currentInput)
    ensures ok ==> Shifted(w, dec.currentInput.value, first, c, i + 1, dec.timeOffset, byte', lastBit')
                   && dec.emitted == s0.emitted && SameWaits(dec, s0)
    ensures !ok ==> |Rises(w, c, 7)| < 7 && HandedOn(dec, s0)
  {
    ghost var t := dec.timeOffset;
    var bit;
    ok, bit := NextRise(dec, w, c, i);
    if !ok {
      RisesStop(w, c, i, 7);
      byte', lastBit' := byte, lastBit;
      return;
    }
    ShiftedNext(w, dec.currentInput.value, first, c, i, t, byte, lastBit, dec.timeOffset, bit);
    byte' := BitOr(byte, Shl(bit, 7 - i));
    lastBit' := bit;
  }

  /** Where the byte stands before the `i`-th turn of the loop of lines
      83-91: `i - 1` further rising edges seen, the cursor on the last of
      them, the bits read so far in the top of the byte, and `lastBit` the
      latest of them. */
  ghost predicate Shifted(w: Waits, input: Entries<Waveform>, first: real, c: real, i: nat, t: real, byte: nat, lastBit: Bit)
    requires 0.0 <= first <= c && Forward(w) && 1 <= i <= 8
  {
    var rises := Rises(w, c, i - 1);
    |rises| == i - 1 && t == Last(c, rises)
    && byte == FoldMsb(SdaBits(input, [first] + rises)) * Pow2(8 - i)
    && (i > 1 ==> lastBit == SdaBits(input, [first] + rises)[i - 1])
  }

  /** One turn of the loop keeps `Shifted`. */
  lemma {:induction false} ShiftedNext(w: Waits, input: Entries<Waveform>, first: real, c: real, i: nat, t: real, byte: nat, lastBit: Bit,
                    t': real, bit: Bit)
    requires 0.0 <= first <= c && Forward(w) && 1 <= i <= 7
    requires Shifted(w, input, first, c, i, t, byte, lastBit)
    requires Rises(w, c, i) == Rises(w, c, i - 1) + [t'] && bit == ToBit(LineAt(input, "sda", t'))
    ensures Shifted(w, input, first, c, i + 1, t', BitOr(byte, Shl(bit, 7 - i)), bit)
  {
    var times := [first] + Rises(w, c, i - 1);
    var rises := Rises(w, c, i);
    assert |rises| == i && rises[i - 1] == t';
    assert [first] + rises == times + [t'];
    ShiftStep(input, times, i, t', byte, bit);
    var bits := SdaBits(input, [first] + rises);
    assert BitOr(byte, Shl(bit, 7 - i)) == FoldMsb(bits) * Pow2(7 - i) && bit == bits[i];
  }

  /** Lines 87-100 once the eight bits are in: for the first byte, the
      last turn of the loop (`i === 7`, lines 87-90) seals the address
      frame with `byte >> 1` and opens the direction frame; then SCL
      falling seals the open frame, with the byte as its label unless it
      was the first. */
  method ByteEnd(dec: FrameDecoderStream, ghost w: Waits, ghost first: real, ghost c: real, waitAddr: bool,
                 ghost s0: Snapshot, byte: nat, lastBit: Bit)
    returns (ok: bool, waitAddr': bool)
    requires Decoding(dec, w) && "bytes" !in s0.started && 0.0 <= first <= c
    requires dec.startedFrame == s0.started["bytes" := OpenFrame(first, None)]
    requires dec.currentOutput == s0.out && dec.emitted == s0.emitted && SameWaits(dec, s0)
    requires |Rises(w, c, 7)| == 7 && dec.timeOffset == Rises(w, c, 7)[6]
    requires byte == FoldMsb(ByteBits(w, dec.currentInput.value, first, c))
    requires lastBit == ByteBits(w, dec.currentInput.value, first, c)[7]
    modifies dec`timeOffset, dec`triggerSuspension, dec`emitted, dec`startedFrame, dec`currentOutput
    ensures Decoding(dec, w)
    ensures var r := ByteSpec(w, dec.currentInput.value, first, c, waitAddr);
      (ok <==> r.Some?) && (ok ==> Did(dec, s0, r.value.frames, r.value.time) && waitAddr' == r.value.waitAddr)
    ensures !ok ==> Halted(dec, s0, [])
  {
    waitAddr' := waitAddr;
    if waitAddr {
      ghost var t0 := dec.timeOffset;
      ok := AddressEnd(dec, w, first, t0, s0, byte, lastBit);
      if ok {
        waitAddr' := false;
      } else {
        HaltedShorter(dec, s0, [], [Seal(OpenFrame(first, None), Some(Num(byte / 2)), t0)]);
      }
    } else {
      ok := SealAt(dec, w, SclFalling(), Some(Num(byte)), s0, OpenFrame(first, None));
    }
  }

  /** Lines 87-96 for the first byte: the address frame sealed at the
      eighth rising edge `t0`, then the direction frame from there to SCL
      falling. */
  method AddressEnd(dec: FrameDecoderStream, ghost w: Waits, ghost first: real, ghost t0: real, ghost s0: Snapshot,
                    byte: nat, lastBit: Bit)
    returns (ok: bool)
    requires Decoding(dec, w) && "bytes" !in s0.started && dec.timeOffset == t0
    requires dec.startedFrame == s0.started["bytes" := OpenFrame(first, None)]
    requires dec.currentOutput == s0.out && dec.emitted == s0.emitted && SameWaits(dec, s0)
    modifies dec`timeOffset, dec`triggerSuspension, dec`emitted, dec`startedFrame, dec`currentOutput
    ensures Decoding(dec, w)
    ensures var fall := w(SclFalling(), t0);
      (ok <==> fall.Fire?)
      && (ok ==> Did(dec, s0, [Seal(OpenFrame(first, None), Some(Num(byte / 2)), t0),
                               Frame(Some(Text(DirectionLabel(lastBit))), t0, fall.time)], fall.time))
    ensures !ok ==> Halted(dec, s0, [Seal(OpenFrame(first, None), Some(Num(byte / 2)), t0)])
  {
    ghost var f1, open := SplitAddress(dec, w, s0, first, byte, lastBit);
    ghost var s2 := Snapshot(dec.timeOffset, Emit(s0.out, f1), s0.started, s0.emitted, s0.timeWait, s0.triggerWait);
    ok := SealAt(dec, w, SclFalling(), None, s2, open);
    if ok {
      assert s0.out["bytes"] + [f1] + [Seal(open, None, dec.timeOffset)]
          == s0.out["bytes"] + [f1, Seal(open, None, dec.timeOffset)];
    } else {
      HaltedAfter(dec, s0, s2, [f1]);
    }
  }

  /** Lines 88-89: `endFrame("bytes", byte >> 1)` seals the address frame
      at the eighth rising edge, and `startFrame` opens the direction frame
      there, labelled by the bit just read. */
  method SplitAddress(dec: FrameDecoderStream, ghost w: Waits, ghost s0: Snapshot, ghost first: real, byte: nat, lastBit: Bit)
    returns (ghost f1: Frame, ghost open: OpenFrame)
    requires Decoding(dec, w) && "bytes" !in s0.started
    requires dec.startedFrame == s0.started["bytes" := OpenFrame(first, None)]
    requires dec.currentOutput == s0.out && dec.emitted == s0.emitted && SameWaits(dec, s0)
    modifies dec`startedFrame, dec`currentOutput
    ensures Decoding(dec, w)
    ensures f1 == Seal(OpenFrame(first, None), Some(Num(byte / 2)), dec.timeOffset)
    ensures open == OpenFrame(dec.timeOffset, Some(Text(DirectionLabel(lastBit))))
    ensures dec.currentOutput == Emit(s0.out, f1)
    ensures dec.startedFrame == s0.started["bytes" := open] && dec.emitted == s0.emitted
  {
    OpenThenSeal(s0.started, OpenFrame(first, None));
    f1 := Seal(OpenFrame(first, None), Some(Num(byte / 2)), dec.timeOffset);
    Close(dec, Some(Num(byte / 2)), OpenFrame(first, None));
    open := OpenFrame(dec.timeOffset, Some(Text(DirectionLabel(lastBit))));
    var _ := dec.StartFrame("bytes", Some(Text(DirectionLabel(lastBit))));
  }

  /** Lines 83-100: a byte whose first bit was read at `first`, the
      condition after it seen at `c`. */
  method ByteCase(dec: FrameDecoderStream, ghost w: Waits, ghost first: real, ghost c: real, waitAddr: bool,
                  ghost s0: Snapshot, byte0: nat)
    returns (ok: bool, waitAddr': bool)
    requires Decoding(dec, w) && "bytes" !in s0.started && 0.0 <= first <= c && dec.timeOffset == c
    requires dec.startedFrame == s0.started["bytes" := OpenFrame(first, None)]
    requires dec.currentOutput == s0.out && dec.emitted == s0.emitted && SameWaits(dec, s0)
    requires byte0 == Shl(ToBit(LineAt(dec.currentInput.value, "sda", first)), 7)
    modifies dec`timeOffset, dec`triggerSuspension, dec`emitted, dec`startedFrame, dec`currentOutput
    ensures Decoding(dec, w)
    ensures var r := ByteSpec(w, dec.currentInput.value, first, c, waitAddr);
      (ok <==> r.Some?) && (ok ==> Did(dec, s0, r.value.frames, r.value.time) && waitAddr' == r.value.waitAddr)
    ensures !ok ==> Halted(dec, s0, [])
  {
    waitAddr' := waitAddr;
    var byte, lastBit;
    ok, byte, lastBit := ShiftInByte(dec, w, first, c, s0, byte0);
    if !ok {
      HaltedAtOnce(dec, s0);
      return;
    }
    ok, waitAddr' := ByteEnd(dec, w, first, c, waitAddr, s0, byte, lastBit);
  }

  /** Lines 67-100, with the frame opened at the first bit: a STOP, a
      repeated START, or the rest of the byte. */
  method AfterFirstBitCase(dec: FrameDecoderStream, ghost w: Waits, waitAddr: bool, ghost s1: Snapshot, byte0: nat)
    returns (ok: bool, next: I2cState, waitAddr': bool)
    requires Decoding(dec, w) && "bytes" !in s1.started && dec.timeOffset == s1.time
    requires dec.startedFrame == s1.started["bytes" := OpenFrame(s1.time, None)]
    requires dec.currentOutput == s1.out && dec.emitted == s1.emitted && SameWaits(dec, s1)
    requires byte0 == Shl(ToBit(LineAt(dec.currentInput.value, "sda", s1.time)), 7)
    modifies dec`timeOffset, dec`triggerSuspension, dec`emitted, dec`startedFrame, dec`currentOutput
    ensures Decoding(dec, w)
    ensures var r := AfterFirstBitSpec(w, dec.currentInput.value, s1.time, waitAddr);
      (ok <==> r.Some?)
      && (ok ==> Did(dec, s1, r.value.frames, r.value.time) && next == r.value.next && waitAddr' == r.value.waitAddr)
    ensures !ok ==> Halted(dec, s1, [])
  {
    next, waitAddr' := ReadByte, waitAddr;
    var cond, values;
    ok, cond, values := AwaitWith(dec, AfterFirstBit(), w);
    if !ok {
      HaltedAtOnce(dec, s1);
      return;
    }
    ghost var open := OpenFrame(s1.time, None);
    if cond == "STOP" {
      OpenThenSeal(s1.started, open);
      Close(dec, Some(Text("STOP")), open);
      next := WaitStart;
    } else if cond == "REP_START" {
      ok := SealAt(dec, w, SclLow(), Some(Text("RS")), s1, open);
    } else {
      ok, waitAddr' := ByteCase(dec, w, s1.time, dec.timeOffset, waitAddr, s1, byte0);
      next := WaitAck;
    }
  }

  /** `read_byte` (lines 62-100): the first bit, `sda << 7`, at a rising
      edge of SCL, where a frame opens. */
  method ReadByteCase(dec: FrameDecoderStream, ghost w: Waits, waitAddr: bool, ghost s0: Snapshot)
    returns (ok: bool, next: I2cState, waitAddr': bool)
    requires Decoding(dec, w) && s0 == Now(dec)
    modifies dec`timeOffset, dec`triggerSuspension, dec`emitted, dec`startedFrame, dec`currentOutput
    ensures Decoding(dec, w)
    ensures "bytes" !in s0.started ==>
      var r := ReadByteSpec(w, dec.currentInput.value, s0.time, waitAddr);
      (ok <==> r.Some?)
      && (ok ==> Did(dec, s0, r.value.frames, r.value.time) && next == r.value.next && waitAddr' == r.value.waitAddr)
      && (!ok ==> Halted(dec, s0, []))
  {
    next, waitAddr' := ReadByte, waitAddr;
    ghost var input := dec.currentInput.value;
    var cond, values;
    ok, cond, values := AwaitWith(dec, SclRising(), w);
    if !ok {
      HaltedAtOnce(dec, s0);
      return;
    }
    LineAtRead(input, "sda", dec.timeOffset);
    var byte := Shl(ToBit(Read(values, "sda")), 7);
    ghost var s1;
    ok, s1 := Open(dec, None);
    if !ok {
      return;
    }
    ok, next, waitAddr' := AfterFirstBitCase(dec, w, waitAddr, s1, byte);
  }

  /** One case of the `switch (fsm)` of lines 48-108; `ok` is whether it
      ran to its end, `next` and `waitAddr'` are `fsm` and `waitAddr`
      after it. */
  method RunState(dec: FrameDecoderStream, ghost w: Waits, ghost st: Steps, fsm: I2cState, waitAddr: bool,
                  ghost s0: Snapshot)
    returns (ok: bool, next: I2cState, waitAddr': bool)
    requires Decoding(dec, w) && StepsOf(st, w, dec.currentInput.value) && s0 == Now(dec)
    modifies dec`timeOffset, dec`triggerSuspension, dec`emitted, dec`startedFrame, dec`currentOutput
    ensures Decoding(dec, w)
    ensures "bytes" !in s0.started ==>
      var r := st(fsm, s0.time, waitAddr);
      (ok <==> r.Some?)
      && (ok ==> Did(dec, s0, r.value.frames, r.value.time) && next == r.value.next && waitAddr' == r.value.waitAddr)
      && (!ok ==> Halted(dec, s0, []))
  {
    assert st(fsm, s0.time, waitAddr) == StepSpec(w, dec.currentInput.value, fsm, s0.time, waitAddr);
    next, waitAddr' := fsm, waitAddr;
    match fsm {
      case WaitIdle =>
        var cond, values;
        ok, cond, values := AwaitWith(dec, IdleSet(), w);
        next := WaitStart;
        NoFrames(s0.out);
        if !ok {
          HaltedAtOnce(dec, s0);
        }
      case WaitStart =>
        ok := StartCase(dec, w, waitAddr, s0);
        next := ReadByte;
      case ReadByte =>
        ok, next, waitAddr' := ReadByteCase(dec, w, waitAddr, s0);
      case WaitAck =>
        ok := AckCase(dec, w, waitAddr, s0);
        next := ReadByte;
    }
  }

  /** `frameDecode` (lines 40-110): the state machine from `wait_idle`
      with `waitAddr` set, for at most `fuel` cases, stopping at the first
      case that does not run to its end. While no frame of `"bytes"` was
      open when it began, it does what `RunSpec` says. */
  method FrameDecode(dec: FrameDecoderStream, ghost w: Waits, ghost st: Steps, fuel: nat, ghost s0: Snapshot)
    returns (fsm: I2cState, waitAddr: bool)
    requires Decoding(dec, w) && StepsOf(st, w, dec.currentInput.value) && Advancing(st) && s0 == Now(dec)
    modifies dec`timeOffset, dec`triggerSuspension, dec`emitted, dec`startedFrame, dec`currentOutput
    ensures Decoding(dec, w)
    ensures "bytes" !in s0.started ==> Ran(st, Progress(WaitIdle, [], s0.time, true, false), fuel, s0, dec, fsm, waitAddr)
  {
    fsm, waitAddr := WaitIdle, true;
    ghost var input := dec.currentInput.value;
    ghost var p0 := Progress(WaitIdle, [], s0.time, true, false);
    if "bytes" !in s0.started {
      TracksStart(st, p0, s0);
    }
    var steps := 0;
    while steps < fuel
      invariant steps <= fuel
      invariant Decoding(dec, w) && dec.currentInput == Some(input)
      invariant "bytes" !in s0.started ==> Tracks(st, p0, steps, s0, Now(dec), fsm, waitAddr)
    {
      var ok, next, waitAddr' := Turn(dec, w, st, p0, steps, fuel, s0, fsm, waitAddr);
      if !ok {
        return;
      }
      fsm, waitAddr := next, waitAddr';
      steps := steps + 1;
    }
    if "bytes" !in s0.started {
      TracksEnd(st, p0, steps, s0, dec, fsm, waitAddr);
    }
  }

  /** The decoder did what `n` turns of `RunSpec` from `p0` do, starting
      from `s0`, and stands in the state `fsm` with the flag `waitAddr`
      they reach: if no case stopped short it appended exactly their
      frames, with the cursor at their time, nothing handed on and both
      records as they were; if one did, their frames come first, then only
      what that case appended, and its wait either threw or suspended. */
  ghost predicate Ran(st: Steps, p0: Progress, n: nat, s0: Snapshot, dec: FrameDecoderStream, fsm: I2cState, waitAddr: bool)
    requires p0.time >= 0.0 && Advancing(st)
    reads dec`currentOutput, dec`startedFrame, dec`timeOffset, dec`emitted
    reads dec`timeSuspension, dec`triggerSuspension
  {
    var p := RunSpec(st, p0, n);
    fsm == p.fsm && waitAddr == p.waitAddr && (!p.stopped ==> Did(dec, s0, p.frames, p.time))
    && (p.stopped ==> Halted(dec, s0, p.frames))
  }

  /** Before the first turn the decoder stands where it began. */
  lemma {:induction false} TracksStart(st: Steps, p0: Progress, s0: Snapshot)
    requires p0.time >= 0.0 && Advancing(st) && "bytes" in s0.out
    requires p0 == Progress(WaitIdle, [], s0.time, true, false)
    ensures Tracks(st, p0, 0, s0, s0, WaitIdle, true)
  {
    NoFrames(s0.out);
  }

  /** Where `Tracks` leads, the decoder did what `RunSpec` says. */
  lemma {:induction false} TracksEnd(st: Steps, p0: Progress, n: nat, s0: Snapshot, dec: FrameDecoderStream, fsm: I2cState,
                                     waitAddr: bool)
    requires p0.time >= 0.0 && Advancing(st)
    requires Tracks(st, p0, n, s0, Now(dec), fsm, waitAddr)
    ensures Ran(st, p0, n, s0, dec, fsm, waitAddr)
  {
    var p := RunSpec(st, p0, n);
    DidNow(dec, s0, p.frames, p.time);
  }

  /** One turn of the loop of `frameDecode`, the `n`-th of at most `fuel`:
      either it takes `Tracks` one turn further, or its case stops short
      and the state is where `RunSpec` ends. */
  method Turn(dec: FrameDecoderStream, ghost w: Waits, ghost st: Steps, ghost p0: Progress, ghost n: nat,
              ghost fuel: nat, ghost s0: Snapshot, fsm: I2cState, waitAddr: bool)
    returns (ok: bool, next: I2cState, waitAddr': bool)
    requires Decoding(dec, w) && StepsOf(st, w, dec.currentInput.value) && Advancing(st)
    requires p0.time >= 0.0 && n < fuel
    requires "bytes" !in s0.started ==> Tracks(st, p0, n, s0, Now(dec), fsm, waitAddr)
    modifies dec`timeOffset, dec`triggerSuspension, dec`emitted, dec`startedFrame, dec`currentOutput
    ensures Decoding(dec, w)
    ensures "bytes" !in s0.started ==>
      if ok then Tracks(st, p0, n + 1, s0, Now(dec), next, waitAddr')
      else Ran(st, p0, fuel, s0, dec, fsm, waitAddr)
  {
    ghost var now := Now(dec);
    ok, next, waitAddr' := RunState(dec, w, st, fsm, waitAddr, now);
    if "bytes" !in s0.started {
      if ok {
        TrackNext(st, p0, n, s0, now, fsm, waitAddr, Now(dec));
      } else {
        TrackStop(st, p0, n, fuel, s0, now, fsm, waitAddr);
        HaltedAfter(dec, s0, now, RunSpec(st, p0, fuel).frames);
      }
    }
  }

  /** The decoder stands where `n` turns of `RunSpec` from `p0` lead, none
      of which stopped short: `now` has the frames they appended after
      those of `s0`. */
  ghost predicate Tracks(st: Steps, p0: Progress, n: nat, s0: Snapshot, now: Snapshot, fsm: I2cState, waitAddr: bool)
    requires p0.time >= 0.0 && Advancing(st)
  {
    var p := RunSpec(st, p0, n);
    !p.stopped && fsm == p.fsm && waitAddr == p.waitAddr && "bytes" in s0.out
    && now == Snapshot(p.time, s0.out["bytes" := s0.out["bytes"] + p.frames], s0.started, s0.emitted,
                       s0.timeWait, s0.triggerWait)
  }

  /** A case that runs to its end takes `Tracks` one turn further. */
  lemma {:induction false} TrackNext(st: Steps, p0: Progress, n: nat, s0: Snapshot, now: Snapshot, fsm: I2cState, waitAddr: bool,
                  now': Snapshot)
    requires p0.time >= 0.0 && Advancing(st)
    requires Tracks(st, p0, n, s0, now, fsm, waitAddr)
    requires st(fsm, now.time, waitAddr).Some?
    requires var r := st(fsm, now.time, waitAddr).value;
      now' == Snapshot(r.time, now.out["bytes" := now.out["bytes"] + r.frames], now.started, now.emitted,
                       now.timeWait, now.triggerWait)
    ensures var r := st(fsm, now.time, waitAddr).value; Tracks(st, p0, n + 1, s0, now', r.next, r.waitAddr)
  {
    var p := RunSpec(st, p0, n);
    var r := st(fsm, now.time, waitAddr).value;
    assert s0.out["bytes"] + p.frames + r.frames == s0.out["bytes"] + (p.frames + r.frames);
  }

  /** A case that stops short ends the run: every later turn of `RunSpec`
      stays where it stopped, with the frames of the turns before. */
  lemma {:induction false} TrackStop(st: Steps, p0: Progress, n: nat, fuel: nat, s0: Snapshot, now: Snapshot, fsm: I2cState,
                  waitAddr: bool)
    requires p0.time >= 0.0 && Advancing(st) && n < fuel
    requires Tracks(st, p0, n, s0, now, fsm, waitAddr)
    requires st(fsm, now.time, waitAddr).None?
    ensures var p := RunSpec(st, p0, fuel);
      p.stopped && fsm == p.fsm && waitAddr == p.waitAddr && now.out == s0.out["bytes" := s0.out["bytes"] + p.frames]
  {
    RunStays(st, p0, n + 1, fuel);
  }

  /** The decoder's constructor: the engine with the outputs `"bits"`
      and `"bytes"`. */
  method NewI2cDecoder() returns (dec: FrameDecoderStream)
    ensures fresh(dec) && dec.Valid() && dec.outputs == ["bits", "bytes"]
    ensures dec.currentInput == None && dec.currentOutput == map["bits" := [], "bytes" := []]
  {
    dec := new FrameDecoderStream(["bits", "bytes"]);
  }

  /** One `decode` of the I2C decoder: the engine's `decode`, and, when
      that starts the body, `frameDecode` on the new input. Decoding from
      the start, `"bytes"` then holds exactly the frames `RunSpec` lists,
      unless a case stopped short. A run that did not stop leaves no wait
      recorded, so the next `decode` starts the body again; one that
      stopped on a wait that suspended leaves that wait in exactly one of
      the two records, and one whose wait threw leaves neither. */
  method DecodeI2c(dec: FrameDecoderStream, input: Entries<Waveform>, fromStart: bool, fuel: nat)
    returns (step: DecodeStep)
    requires dec.Valid() && WellFormedInput(input) && "bytes" in dec.outputs
    modifies dec
    ensures dec.Valid()
    ensures step.BodyStarted? <==> fromStart || (old(dec.timeSuspension).None? && old(dec.triggerSuspension).None?)
    ensures step.BodyStarted? ==> dec.currentInput == Some(input)
    ensures step.BodyStarted? && fromStart ==>
      var p := RunSpec(EngineSteps(EngineWaits(input), input), Progress(WaitIdle, [], 0.0, true, false), fuel);
      var e0 := old(dec.emitted) + FlushLog(dec.outputs, old(dec.currentOutput));
      (!p.stopped ==> dec.currentOutput["bytes"] == p.frames && dec.timeOffset == p.time && dec.emitted == e0
                      && dec.timeSuspension.None? && dec.triggerSuspension.None?)
      && (p.stopped ==> p.frames <= dec.currentOutput["bytes"]
                        && ((dec.emitted == e0 && dec.timeSuspension.None? && dec.triggerSuspension.None?)
                            || (dec.emitted == e0 + FlushLog(dec.outputs, dec.currentOutput)
                                && dec.timeSuspension.Some? != dec.triggerSuspension.Some?)))
  {
    step := dec.Decode(input, fromStart);
    if step.BodyStarted? {
      ghost var w := EngineWaits(input);
      var _, _ := FrameDecode(dec, w, EngineSteps(w, input), fuel, Now(dec));
    }
  }
}
