/** The UART decoder (src/streams/decoder/serial/UART.ts): a state machine
    on one binary line that waits for an idle high level, a falling start
    edge, then samples each data bit in its middle and labels the byte. */
module Uart {
  import opened Wrappers
  import opened Util
  import opened Waveforms
  import opened Triggers
  import opened Scheduler
  import opened FrameDecoder
  import opened Bits
  import opened DecoderSteps

  /** `"NONE" | "EVEN" | "ODD"` */
  datatype Parity = NoParity | Even | Odd

  /** The values of the four parameters of lines 6-33. */
  datatype UartParams = UartParams(baudRate: real, dataBits: nat, parityBit: Parity, stopBits: nat)

  /** The ranges and options the parameter declarations allow. */
  predicate ValidParams(p: UartParams) {
    1.0 <= p.baudRate <= 1000000.0
    && 7 <= p.dataBits <= 9
    && 1 <= p.stopBits <= 2
  }

  /** The defaults of lines 13, 19, 25 and 31. */
  const DefaultParams := UartParams(115200.0, 8, NoParity, 1)

  /** `TIME_HALF_BIT` */
  function HalfBit(p: UartParams): (h: real)
    requires ValidParams(p)
  {
    0.5 / p.baudRate
  }

  /** `TIME_FULL_BIT` */
  function FullBit(p: UartParams): (f: real)
    requires ValidParams(p)
  {
    1.0 / p.baudRate
  }

  /** A full bit lasts one period of the baud rate, half a bit half a period. */
  lemma {:induction false} BitRate(p: UartParams)
    requires ValidParams(p)
    ensures FullBit(p) * p.baudRate == 1.0 && HalfBit(p) * p.baudRate == 0.5
  {
  }

  /** Both delays are positive, and two half bits make a full bit. */
  lemma {:induction false} BitTimes(p: UartParams)
    requires ValidParams(p)
    ensures HalfBit(p) > 0.0 && FullBit(p) > 0.0
    ensures HalfBit(p) + HalfBit(p) == FullBit(p)
  {
  }

  /** `"WAIT_IDLE" | "WAIT_START" | "READ_BYTE" | "CHECK_PARITY" | "WAIT_STOP"` */
  datatype UartState = WaitIdle | WaitStart | ReadByte | CheckParity | WaitStop

  /** The state the `switch` of lines 77-141 leaves behind after a case
      that ran to its end. With a parity bit, `CHECK_PARITY` does not
      assign `fsm`, so the machine stays there. */
  function NextState(s: UartState, parity: Parity): (r: UartState)
    ensures r == s <==> s == CheckParity && parity != NoParity
  {
    match s
    case WaitIdle => WaitStart
    case WaitStart => ReadByte
    case ReadByte => CheckParity
    case CheckParity => if parity == NoParity then WaitStop else CheckParity
    case WaitStop => WaitIdle
  }

  /** The state after `n` cases that ran to their end. */
  function Steps(s: UartState, parity: Parity, n: nat): UartState
    decreases n
  {
    if n == 0 then s else Steps(NextState(s, parity), parity, n - 1)
  }

  /** Without a parity bit the machine goes round its five states. */
  lemma {:induction false} NoParityCycle(s: UartState, rounds: nat)
    ensures Steps(s, NoParity, 5 * rounds) == s
  {
    if rounds > 0 {
      NoParityCycle(s, rounds - 1);
      StepsAdd(s, NoParity, 5, 5 * (rounds - 1));
    }
  }

  lemma {:induction false} StepsAdd(s: UartState, parity: Parity, m: nat, n: nat)
    ensures Steps(s, parity, m + n) == Steps(Steps(s, parity, m), parity, n)
    decreases m
  {
    if m > 0 {
      StepsAdd(NextState(s, parity), parity, m - 1, n);
    }
  }

  /** With a parity bit, once the machine reaches `CHECK_PARITY` it stays
      there: the byte's parity is checked again and again, one bit time at
      a time, and no later byte is read. */
  lemma {:induction false} ParityStaysInCheck(parity: Parity, n: nat)
    requires parity != NoParity
    ensures Steps(CheckParity, parity, n) == CheckParity
  {
    if n > 0 {
      ParityStaysInCheck(parity, n - 1);
    }
  }

  /** `{"idle": {"data": "high"}}` */
  function IdleSet(): TriggerSet {
    [("idle", [("data", OnBinary(IsHigh))])]
  }

  /** `{"start": {"data": "falling"}}` */
  function StartSet(): TriggerSet {
    [("start", [("data", OnBinary(Falling))])]
  }

  /** The start of bit `k` of a frame that starts at `t0`: the cursor
      after `k` waits of a full bit. */
  function BitStart(t0: real, p: UartParams, k: nat): (t: real)
    requires ValidParams(p)
    ensures t >= t0
    decreases k
  {
    if k == 0 then t0 else BitStart(t0, p, k - 1) + FullBit(p)
  }

  /** Bit `k` starts `k` full bits after the frame. */
  lemma {:induction false} BitStartIs(t0: real, p: UartParams, k: nat)
    requires ValidParams(p)
    ensures BitStart(t0, p, k) == t0 + k as real * FullBit(p)
  {
    if k > 0 {
      BitStartIs(t0, p, k - 1);
      var f := FullBit(p);
      assert k as real * f == (k - 1) as real * f + f;
    }
  }

  /** The middle of bit `k`, where the decoder samples it. */
  function BitCentre(t0: real, p: UartParams, k: nat): real
    requires ValidParams(p)
  {
    BitStart(t0, p, k) + HalfBit(p)
  }

  /** The middle of bit `k` comes before the end of bit `n - 1` for
      every `k < n`: the frame's samples are taken in time order. */
  lemma {:induction false} CentreBeforeEnd(t0: real, p: UartParams, k: nat, n: nat)
    requires ValidParams(p) && k < n
    ensures BitCentre(t0, p, k) < BitStart(t0, p, n)
    decreases n
  {
    BitTimes(p);
    if k < n - 1 {
      CentreBeforeEnd(t0, p, k, n - 1);
    }
  }

  /** An input without a sample in the middle of bit `k` has none at the
      end of bit `n - 1` either, for every `k < n`. */
  lemma {:induction false} MissedSample(input: Entries<Waveform>, t0: real, p: UartParams, k: nat, n: nat)
    requires WellFormedInput(input) && ValidParams(p) && k < n
    requires 0.0 <= BitCentre(t0, p, k) && !AllInRange(input, BitCentre(t0, p, k))
    ensures !AllInRange(input, BitStart(t0, p, n))
  {
    CentreBeforeEnd(t0, p, k, n);
    OutOfRangeLater(input, BitCentre(t0, p, k), BitStart(t0, p, n));
  }

  /** The middle of bit `k` is a full bit after the middle of bit `k - 1`. */
  lemma {:induction false} NextCentre(t0: real, p: UartParams, k: nat)
    requires ValidParams(p) && k >= 1
    ensures BitCentre(t0, p, k - 1) + FullBit(p) == BitCentre(t0, p, k)
  {
  }

  /** Half a bit after the middle of bit `n - 1` is the end of bit `n - 1`. */
  lemma {:induction false} BitCentreEnd(t0: real, p: UartParams, n: nat)
    requires ValidParams(p) && n >= 1
    ensures BitCentre(t0, p, n - 1) + HalfBit(p) == BitStart(t0, p, n)
  {
    BitTimes(p);
  }

  /** The first `n` bits of a frame starting at `t0`, each read as
      `byte << 1 | bit` reads it, first received first. */
  function FrameBits(input: Entries<Waveform>, t0: real, p: UartParams, n: nat): (bits: seq<Bit>)
    requires ValidParams(p)
    ensures |bits| == n
    ensures forall k :: 0 <= k < n ==> bits[k] == ToBit(LineAt(input, "data", BitCentre(t0, p, k)))
  {
    if n == 0 then [] else FrameBits(input, t0, p, n - 1) + [ToBit(LineAt(input, "data", BitCentre(t0, p, n - 1)))]
  }

  /** `parityOk`: the parity bit and the set data bits together are odd
      exactly when the parity is to be odd. */
  predicate ParityHolds(ones: nat, parityBit: Bit, odd: bool) {
    ((ones + parityBit) % 2 == 1) == odd
  }

  /** Lines 116-121: start from the parity bit and flip once per set bit
      among the low `n` bits of the byte. */
  method ParityCheck(byte: nat, n: nat, parityBit: bool, odd: bool) returns (ok: bool)
    ensures ok == ParityHolds(Ones(byte, n), if parityBit then 1 else 0, odd)
  {
    var dataParity := parityBit;
    for i := 0 to n
      invariant dataParity == ((Ones(byte, i) + (if parityBit then 1 else 0)) % 2 == 1)
    {
      if TestBit(byte, i) {
        dataParity := !dataParity;
      }
    }
    ok := dataParity == odd;
  }

  /** Exactly one value of the parity bit passes the check. */
  lemma {:induction false} ParityBitDecides(ones: nat, odd: bool)
    ensures ParityHolds(ones, 0, odd) != ParityHolds(ones, 1, odd)
  {
    assert (ones + 1) % 2 != ones % 2;
  }

  /** For a byte folded from the received bits, the check counts exactly
      the ones that were received. */
  lemma {:induction false} ParityOfReceivedBits(bits: seq<Bit>, parityBit: Bit, odd: bool)
    ensures ParityHolds(Ones(FoldMsb(bits), |bits|), parityBit, odd)
        <==> ((CountOnes(bits) + parityBit) % 2 == 1) == odd
  {
    OnesOfFoldAll(bits);
  }

  /** `(await this.waitTime(seconds))["data"]`: the body goes on only when
      every channel has a sample `seconds` after the cursor, and then reads
      the line there; otherwise the engine has flushed and recorded the
      time it waits for. */
  method Sample(dec: FrameDecoderStream, seconds: real) returns (ok: bool, v: Option<real>)
    requires Running(dec) && seconds > 0.0
    modifies dec`timeOffset, dec`timeSuspension, dec`emitted
    ensures Running(dec)
    ensures ok <==> AllInRange(dec.currentInput.value, old(dec.timeOffset) + seconds)
    ensures ok ==> dec.timeOffset == old(dec.timeOffset) + seconds && dec.emitted == old(dec.emitted)
                   && dec.timeSuspension == old(dec.timeSuspension)
                   && v == LineAt(dec.currentInput.value, "data", dec.timeOffset)
    ensures !ok ==> dec.emitted == old(dec.emitted) + FlushLog(dec.outputs, dec.currentOutput)
                    && dec.timeSuspension == Some(old(dec.timeOffset) + seconds)
  {
    ghost var input, t := dec.currentInput.value, dec.timeOffset + seconds;
    var w := dec.WaitTime(seconds);
    ok := w.Ready?;
    v := None;
    if ok {
      assert dec.timeOffset == t && w.value == InputAtTime(input, t);
      LineAtRead(input, "data", t);
      v := Read(w.value, "data");
    }
  }

  /** The last half bit of a frame, then `endFrame("bytes", data)`: the
      step that started from `s0` appends the frame opened as `open`,
      sealed at `end`, half a bit after the cursor, exactly when the input
      has a sample at `end`. */
  method Finish(dec: FrameDecoderStream, p: UartParams, data: Option<Label>, ghost s0: Snapshot, ghost open: OpenFrame,
                ghost end: real)
    returns (ok: bool)
    requires Running(dec) && ValidParams(p) && dec.timeOffset + HalfBit(p) == end
    requires "bytes" !in s0.started && dec.startedFrame == s0.started["bytes" := open]
    requires dec.currentOutput == s0.out && dec.emitted == s0.emitted && SameWaits(dec, s0)
    modifies dec`timeOffset, dec`emitted, dec`timeSuspension
    modifies dec`startedFrame, dec`currentOutput
    ensures Running(dec)
    ensures ok <==> AllInRange(dec.currentInput.value, end)
    ensures ok ==> Appended(dec, s0, Seal(open, data, end))
    ensures !ok ==> dec.currentOutput == s0.out && HandedOn(dec, s0)
  {
    BitTimes(p);
    var ok', _ := Sample(dec, HalfBit(p));
    if !ok' {
      return false;
    }
    OpenThenSeal(s0.started, open);
    Close(dec, data, open);
    return true;
  }

  /** Lines 86-88: label the bit time after the start edge `"START"`. */
  method StartBit(dec: FrameDecoderStream, p: UartParams) returns (ok: bool, ghost s0: Snapshot)
    requires Running(dec) && ValidParams(p)
    modifies dec`timeOffset, dec`emitted, dec`timeSuspension
    modifies dec`startedFrame, dec`currentOutput
    ensures Running(dec)
    ensures s0 == old(Now(dec))
    ensures "bytes" !in s0.started ==> (ok <==> AllInRange(dec.currentInput.value, s0.time + FullBit(p)))
    ensures ok ==> Appended(dec, s0, Frame(Some(Text("START")), s0.time, s0.time + FullBit(p)))
    ensures !ok ==> Halted(dec, s0, []) && dec.currentOutput == s0.out
  {
    BitTimes(p);
    s0 := Now(dec);
    var t0 := dec.timeOffset;
    var o := dec.StartFrame("bytes", Some(Text("START")));
    if o.Fail? {
      HaltedAtOnce(dec, s0);
      ok := false;
      return;
    }
    var w, _ := Sample(dec, FullBit(p));
    if !w {
      HaltedAtOnce(dec, s0);
      ok := false;
      return;
    }
    OpenThenSeal(s0.started, OpenFrame(t0, Some(Text("START"))));
    Close(dec, None, OpenFrame(t0, Some(Text("START"))));
    return true, s0;
  }

  /** `READ_BYTE` (lines 91-105): open a frame, sample every data bit in
      its middle, shifting each in below the earlier ones, and seal the
      frame at the end of the last bit with the byte as its label. */
  method ReadData(dec: FrameDecoderStream, p: UartParams) returns (ok: bool, byte: nat, ghost s0: Snapshot)
    requires Running(dec) && ValidParams(p)
    modifies dec`timeOffset, dec`emitted, dec`timeSuspension
    modifies dec`startedFrame, dec`currentOutput
    ensures Running(dec)
    ensures s0 == old(Now(dec))
    ensures "bytes" !in s0.started ==>
      var c := ByteSpec(dec.currentInput.value, p, s0.time);
      (ok <==> c.Some?) && (ok ==> Did(dec, s0, c.value.frames, c.value.time) && byte == c.value.byte)
    ensures ok ==> byte == FoldMsb(FrameBits(dec.currentInput.value, s0.time, p, p.dataBits))
                   && byte < Pow2(p.dataBits)
                   && Appended(dec, s0, Seal(OpenFrame(s0.time, None), Some(Num(byte)),
                                             BitStart(s0.time, p, p.dataBits)))
    ensures !ok ==> Halted(dec, s0, []) && dec.currentOutput == s0.out
  {
    byte := 0;
    var ok': bool;
    ok', s0 := Open(dec, None);
    if !ok' {
      HaltedAtOnce(dec, s0);
      ok := false;
      return;
    }
    ByteOutcome(dec.currentInput.value, p, s0.time);
    ok, byte := ByteBody(dec, p, s0);
  }

  /** Lines 94-104, once the frame is open: the data bits, then the frame
      sealed at the end of the last one with the byte as its label. */
  method ByteBody(dec: FrameDecoderStream, p: UartParams, ghost s0: Snapshot) returns (ok: bool, byte: nat)
    requires Running(dec) && ValidParams(p) && "bytes" !in s0.started
    requires s0 == Snapshot(dec.timeOffset, dec.currentOutput, s0.started, dec.emitted,
                            dec.timeSuspension, dec.triggerSuspension)
    requires dec.startedFrame == s0.started["bytes" := OpenFrame(s0.time, None)]
    modifies dec`timeOffset, dec`emitted, dec`timeSuspension
    modifies dec`startedFrame, dec`currentOutput
    ensures Running(dec) && dec.currentInput == old(dec.currentInput)
    ensures ok <==> AllInRange(dec.currentInput.value, BitStart(s0.time, p, p.dataBits))
    ensures ok ==> byte == FoldMsb(FrameBits(dec.currentInput.value, s0.time, p, p.dataBits))
                   && byte < Pow2(p.dataBits)
                   && Appended(dec, s0, Seal(OpenFrame(s0.time, None), Some(Num(byte)),
                                             BitStart(s0.time, p, p.dataBits)))
    ensures !ok ==> Halted(dec, s0, []) && dec.currentOutput == s0.out
  {
    ok, byte := SampleByte(dec, p, s0.time, s0.emitted);
    if !ok {
      HaltedAtOnce(dec, s0);
      return;
    }
    BitCentreEnd(s0.time, p, p.dataBits);
    ok := Finish(dec, p, Some(Num(byte)), s0, OpenFrame(s0.time, None), BitStart(s0.time, p, p.dataBits));
    if !ok {
      HaltedAtOnce(dec, s0);
    }
  }

  /** Lines 94-99: the data bits from the frame opened at `t0`, the first
      half a bit in and each further one a bit time after the last,
      shifted in most significant first. When a wait does not resolve,
      the input ends before the frame does. */
  method SampleByte(dec: FrameDecoderStream, p: UartParams, ghost t0: real, ghost e0: seq<(string, seq<Frame>)>)
    returns (ok: bool, byte: nat)
    requires Running(dec) && ValidParams(p) && dec.timeOffset == t0 && dec.emitted == e0
    modifies dec`timeOffset, dec`timeSuspension, dec`emitted
    ensures Running(dec)
    ensures ok ==> dec.timeSuspension == old(dec.timeSuspension)
    ensures !ok ==> dec.timeSuspension.Some?
    ensures ok ==> dec.timeOffset == BitCentre(t0, p, p.dataBits - 1) && dec.emitted == e0
                   && byte == FoldMsb(FrameBits(dec.currentInput.value, t0, p, p.dataBits))
                   && byte < Pow2(p.dataBits)
    ensures !ok ==> !AllInRange(dec.currentInput.value, BitStart(t0, p, p.dataBits))
                    && dec.emitted == e0 + FlushLog(dec.outputs, dec.currentOutput)
  {
    BitTimes(p);
    ghost var input := dec.currentInput.value;
    var v: Option<real>;
    ok, v := Sample(dec, HalfBit(p));
    if !ok {
      MissedSample(input, t0, p, 0, p.dataBits);
      return false, 0;
    }
    byte := ToBit(v);
    assert FrameBits(input, t0, p, 1) == [byte];
    ok, byte := ShiftInBits(dec, p, input, t0, e0, dec.timeSuspension, byte);
  }

  /** Lines 96-99: sample each further data bit one bit time after the
      last and shift it in at the bottom. */
  method ShiftInBits(dec: FrameDecoderStream, p: UartParams, ghost input: Entries<Waveform>, ghost t0: real,
                     ghost e0: seq<(string, seq<Frame>)>, ghost record: Option<real>, first: nat)
    returns (ok: bool, byte: nat)
    requires Running(dec) && ValidParams(p) && dec.currentInput == Some(input)
    requires dec.emitted == e0 && dec.timeSuspension == record
    requires dec.timeOffset == BitCentre(t0, p, 0) && first == FoldMsb(FrameBits(input, t0, p, 1))
    modifies dec`timeOffset, dec`timeSuspension, dec`emitted
    ensures Running(dec)
    ensures ok ==> dec.timeOffset == BitCentre(t0, p, p.dataBits - 1) && dec.emitted == e0 && dec.timeSuspension == record
                   && byte == FoldMsb(FrameBits(input, t0, p, p.dataBits))
    ensures !ok ==> !AllInRange(input, BitStart(t0, p, p.dataBits))
                    && dec.emitted == e0 + FlushLog(dec.outputs, dec.currentOutput) && dec.timeSuspension.Some?
  {
    BitTimes(p);
    byte := first;
    for i := 1 to p.dataBits
      invariant Running(dec) && dec.currentInput == Some(input)
      invariant dec.emitted == e0 && dec.timeSuspension == record
      invariant dec.timeOffset == BitCentre(t0, p, i - 1)
      invariant byte == FoldMsb(FrameBits(input, t0, p, i))
    {
      var ok';
      ok', byte := ShiftInOne(dec, p, input, t0, e0, record, i, byte);
      if !ok' {
        return false, byte;
      }
    }
    return true, byte;
  }

  /** Lines 96-98 for data bit `i`: wait a bit time, then shift the level
      in at the bottom of the bits before it. */
  method ShiftInOne(dec: FrameDecoderStream, p: UartParams, ghost input: Entries<Waveform>, ghost t0: real,
                    ghost e0: seq<(string, seq<Frame>)>, ghost record: Option<real>, i: nat, byte: nat)
    returns (ok: bool, byte': nat)
    requires Running(dec) && ValidParams(p) && dec.currentInput == Some(input) && 1 <= i < p.dataBits
    requires dec.timeOffset == BitCentre(t0, p, i - 1) && byte == FoldMsb(FrameBits(input, t0, p, i))
    requires dec.emitted == e0 && dec.timeSuspension == record
    modifies dec`timeOffset, dec`timeSuspension, dec`emitted
    ensures Running(dec)
    ensures ok ==> dec.timeOffset == BitCentre(t0, p, i) && dec.emitted == e0 && dec.timeSuspension == record
                   && byte' == FoldMsb(FrameBits(input, t0, p, i + 1))
    ensures !ok ==> !AllInRange(input, BitStart(t0, p, p.dataBits))
                    && dec.emitted == e0 + FlushLog(dec.outputs, dec.currentOutput) && dec.timeSuspension.Some?
  {
    BitTimes(p);
    NextCentre(t0, p, i);
    ghost var c := BitCentre(t0, p, i);
    var v;
    ok, v := Sample(dec, FullBit(p));
    if !ok {
      MissedSample(input, t0, p, i, p.dataBits);
      byte' := byte;
      return;
    }
    assert dec.timeOffset == c;
    assert v == LineAt(input, "data", c);
    FoldNextBit(input, t0, p, i, byte);
    byte' := BitOr(2 * byte, ToBit(v));
  }

  /** Shifting in the level in the middle of bit `i` below the first `i`
      bits folds the first `i + 1`. */
  lemma {:induction false} FoldNextBit(input: Entries<Waveform>, t0: real, p: UartParams, i: nat, byte: nat)
    requires ValidParams(p) && byte == FoldMsb(FrameBits(input, t0, p, i))
    ensures BitOr(2 * byte, ToBit(LineAt(input, "data", BitCentre(t0, p, i))))
            == FoldMsb(FrameBits(input, t0, p, i + 1))
  {
    var bit := ToBit(LineAt(input, "data", BitCentre(t0, p, i)));
    var bits := FrameBits(input, t0, p, i + 1);
    assert bits == FrameBits(input, t0, p, i) + [bit];
    assert bits[..i] == FrameBits(input, t0, p, i);
    ShiftInBit(byte, bit);
  }

  /** `CHECK_PARITY` with a parity bit (lines 110-126): open a frame, read
      the parity bit in the middle of its bit time, compare it with the
      byte, and seal the frame at the end of the bit with the verdict. */
  method CheckParityBit(dec: FrameDecoderStream, p: UartParams, byte: nat)
    returns (ok: bool, parityOk: bool, ghost s0: Snapshot)
    requires Running(dec) && ValidParams(p) && p.parityBit != NoParity
    modifies dec`timeOffset, dec`emitted, dec`timeSuspension
    modifies dec`startedFrame, dec`currentOutput
    ensures Running(dec)
    ensures s0 == old(Now(dec))
    ensures "bytes" !in s0.started ==>
      var c := ParitySpec(dec.currentInput.value, p, s0.time, byte);
      (ok <==> c.Some?) && (ok ==> Did(dec, s0, c.value.frames, c.value.time))
    ensures ok ==>
      var parityBit := ToBit(LineAt(dec.currentInput.value, "data", BitCentre(s0.time, p, 0)));
      parityOk == ParityHolds(Ones(byte, p.dataBits), parityBit, p.parityBit == Odd)
      && Appended(dec, s0, Frame(Some(Text(ParityLabel(parityOk))), s0.time, s0.time + FullBit(p)))
    ensures !ok ==> Halted(dec, s0, []) && dec.currentOutput == s0.out
  {
    parityOk := false;
    ParityOutcome(dec.currentInput.value, p, dec.timeOffset, byte);
    var ok': bool;
    ok', s0 := Open(dec, None);
    if !ok' {
      HaltedAtOnce(dec, s0);
      ok := false;
      return;
    }
    ok, parityOk := ParityBody(dec, p, byte, s0);
  }

  /** Lines 111-125, once the frame is open: the parity bit, then the
      frame sealed at the end of it with the verdict. */
  method ParityBody(dec: FrameDecoderStream, p: UartParams, byte: nat, ghost s0: Snapshot)
    returns (ok: bool, parityOk: bool)
    requires Running(dec) && ValidParams(p) && "bytes" !in s0.started
    requires s0 == Snapshot(dec.timeOffset, dec.currentOutput, s0.started, dec.emitted,
                            dec.timeSuspension, dec.triggerSuspension)
    requires dec.startedFrame == s0.started["bytes" := OpenFrame(s0.time, None)]
    modifies dec`timeOffset, dec`emitted, dec`timeSuspension
    modifies dec`startedFrame, dec`currentOutput
    ensures Running(dec) && dec.currentInput == old(dec.currentInput)
    ensures ok <==> AllInRange(dec.currentInput.value, s0.time + FullBit(p))
    ensures ok ==>
      var parityBit := ToBit(LineAt(dec.currentInput.value, "data", BitCentre(s0.time, p, 0)));
      parityOk == ParityHolds(Ones(byte, p.dataBits), parityBit, p.parityBit == Odd)
      && Appended(dec, s0, Frame(Some(Text(ParityLabel(parityOk))), s0.time, s0.time + FullBit(p)))
    ensures !ok ==> Halted(dec, s0, []) && dec.currentOutput == s0.out
  {
    BitTimes(p);
    ok, parityOk := ReadParity(dec, p, byte, s0.time, s0.emitted);
    if !ok {
      HaltedAtOnce(dec, s0);
      return;
    }
    ok := Finish(dec, p, Some(Text(ParityLabel(parityOk))), s0, OpenFrame(s0.time, None), s0.time + FullBit(p));
    if !ok {
      HaltedAtOnce(dec, s0);
    }
  }

  /** Lines 111-124: sample the parity bit in its middle and check it
      against the low `dataBits` bits of the byte. When the wait does not
      resolve, the input ends before the parity bit does. */
  method ReadParity(dec: FrameDecoderStream, p: UartParams, byte: nat, ghost t0: real,
                    ghost e0: seq<(string, seq<Frame>)>)
    returns (ok: bool, parityOk: bool)
    requires Running(dec) && ValidParams(p) && dec.timeOffset == t0 && dec.emitted == e0
    modifies dec`timeOffset, dec`timeSuspension, dec`emitted
    ensures Running(dec)
    ensures ok ==> dec.timeSuspension == old(dec.timeSuspension)
    ensures !ok ==> dec.timeSuspension.Some?
    ensures ok ==> dec.timeOffset == BitCentre(t0, p, 0) && dec.emitted == e0
                   && parityOk == ParityHolds(Ones(byte, p.dataBits),
                                              ToBit(LineAt(dec.currentInput.value, "data", BitCentre(t0, p, 0))),
                                              p.parityBit == Odd)
    ensures !ok ==> !AllInRange(dec.currentInput.value, t0 + FullBit(p))
                    && dec.emitted == e0 + FlushLog(dec.outputs, dec.currentOutput)
  {
    BitTimes(p);
    parityOk := false;
    ghost var input := dec.currentInput.value;
    var parityBit: Option<real>;
    ok, parityBit := Sample(dec, HalfBit(p));
    if !ok {
      OutOfRangeLater(input, t0 + HalfBit(p), t0 + FullBit(p));
      return;
    }
    assert ToBit(parityBit) == if parityBit == Some(1.0) then 1 else 0;
    parityOk := ParityCheck(byte, p.dataBits, parityBit == Some(1.0), p.parityBit == Odd);
  }

  /** `"Parity: " + (parityOk ? "OK" : "ERROR")`, a label that is never empty. */
  function ParityLabel(parityOk: bool): (s: string)
    ensures |s| > 0
  {
    "Parity: " + (if parityOk then "OK" else "ERROR")
  }

  /** `WAIT_STOP` (lines 128-140): a frame over the stop bits, labelled
      `"START"` as the source labels it, with the line sampled in the
      middle of each stop bit. `lineHigh` is whether every
      `console.assert` of the line being high held. */
  method AwaitStop(dec: FrameDecoderStream, p: UartParams) returns (ok: bool, lineHigh: bool, ghost s0: Snapshot)
    requires Running(dec) && ValidParams(p)
    modifies dec`timeOffset, dec`emitted, dec`timeSuspension
    modifies dec`startedFrame, dec`currentOutput
    ensures Running(dec)
    ensures s0 == old(Now(dec))
    ensures "bytes" !in s0.started ==>
      var c := StopSpec(dec.currentInput.value, p, s0.time, 0);
      (ok <==> c.Some?) && (ok ==> Did(dec, s0, c.value.frames, c.value.time))
    ensures ok ==>
      (lineHigh <==> forall k :: 0 <= k < p.stopBits ==>
                       LineAt(dec.currentInput.value, "data", BitCentre(s0.time, p, k)) == Some(1.0))
      && Appended(dec, s0, Frame(Some(Text("START")), s0.time, BitStart(s0.time, p, p.stopBits)))
    ensures !ok ==> Halted(dec, s0, []) && dec.currentOutput == s0.out
  {
    BitTimes(p);
    lineHigh := false;
    ghost var input := dec.currentInput.value;
    var ok': bool;
    ok', s0 := Open(dec, Some(Text("START")));
    if !ok' {
      HaltedAtOnce(dec, s0);
      ok := false;
      return;
    }
    var v: Option<real>;
    ok', v := Sample(dec, HalfBit(p));
    if !ok' {
      MissedSample(input, s0.time, p, 0, p.stopBits);
      HaltedAtOnce(dec, s0);
      ok := false;
      return;
    }
    ok', lineHigh := StopLevels(dec, p, input, s0.time, s0.emitted, v == Some(1.0));
    if !ok' {
      HaltedAtOnce(dec, s0);
      ok := false;
      return;
    }
    BitCentreEnd(s0.time, p, p.stopBits);
    ok := Finish(dec, p, None, s0, OpenFrame(s0.time, Some(Text("START"))), BitStart(s0.time, p, p.stopBits));
    if !ok {
      HaltedAtOnce(dec, s0);
    }
  }

  /** Lines 133-135: sample each further stop bit one bit time after the
      last; `lineHigh` stays true while every sample is high. */
  method StopLevels(dec: FrameDecoderStream, p: UartParams, ghost input: Entries<Waveform>, ghost t0: real,
                    ghost e0: seq<(string, seq<Frame>)>, first: bool)
    returns (ok: bool, lineHigh: bool)
    requires Running(dec) && ValidParams(p) && dec.currentInput == Some(input) && dec.emitted == e0
    requires dec.timeOffset == BitCentre(t0, p, 0)
    requires first == AllHigh(input, t0, p, 1)
    modifies dec`timeOffset, dec`timeSuspension, dec`emitted
    ensures Running(dec)
    ensures ok ==> dec.timeSuspension == old(dec.timeSuspension)
    ensures !ok ==> dec.timeSuspension.Some?
    ensures ok ==> dec.timeOffset == BitCentre(t0, p, p.stopBits - 1) && dec.emitted == e0
                   && (lineHigh <==> forall k :: 0 <= k < p.stopBits ==> LineAt(input, "data", BitCentre(t0, p, k)) == Some(1.0))
    ensures !ok ==> !AllInRange(input, BitStart(t0, p, p.stopBits))
                    && dec.emitted == e0 + FlushLog(dec.outputs, dec.currentOutput)
  {
    BitTimes(p);
    lineHigh := first;
    for i := 1 to p.stopBits
      invariant Running(dec) && dec.currentInput == Some(input)
      invariant dec.timeOffset == BitCentre(t0, p, i - 1)
      invariant lineHigh == AllHigh(input, t0, p, i)
      invariant dec.emitted == e0 && dec.timeSuspension == old(dec.timeSuspension)
    {
      NextCentre(t0, p, i);
      var ok', v := Sample(dec, FullBit(p));
      if !ok' {
        MissedSample(input, t0, p, i, p.stopBits);
        return false, lineHigh;
      }
      lineHigh := lineHigh && v == Some(1.0);
    }
    AllHighMeans(input, t0, p, p.stopBits);
    return true, lineHigh;
  }

  /** The line is high in the middle of each of the first `n` bits of a
      frame starting at `t0`. */
  ghost predicate AllHigh(input: Entries<Waveform>, t0: real, p: UartParams, n: nat)
    requires ValidParams(p)
    decreases n
  {
    n == 0 || (AllHigh(input, t0, p, n - 1) && LineAt(input, "data", BitCentre(t0, p, n - 1)) == Some(1.0))
  }

  lemma {:induction false} AllHighMeans(input: Entries<Waveform>, t0: real, p: UartParams, n: nat)
    requires ValidParams(p)
    ensures AllHigh(input, t0, p, n) <==> forall k :: 0 <= k < n ==> LineAt(input, "data", BitCentre(t0, p, k)) == Some(1.0)
  {
    if n > 0 {
      AllHighMeans(input, t0, p, n - 1);
    }
  }

  /** What one case of the `switch` does when it runs to its end: the
      frames it appends to `"bytes"`, where it leaves the cursor, and
      `byte` after it. */
  datatype UartCase = UartCase(frames: seq<Frame>, time: real, byte: nat)

  /** `WAIT_IDLE` (lines 78-82): the line goes high. */
  function IdleSpec(w: Waits, t: real, byte: nat): (r: Option<UartCase>)
    requires Forward(w) && t >= 0.0
    ensures r.Some? ==> r.value.time > t && r.value.frames == [] && r.value.byte == byte
  {
    var s := w(IdleSet(), t);
    if s.Fire? then Some(UartCase([], s.time, byte)) else None
  }

  /** `WAIT_START` (lines 83-90): the falling edge, then the frame
      `"START"` over one full bit. */
  function StartSpec(w: Waits, input: Entries<Waveform>, p: UartParams, t: real, byte: nat): (r: Option<UartCase>)
    requires Forward(w) && ValidParams(p) && t >= 0.0
    ensures r.Some? ==> r.value.time > t && |r.value.frames| == 1 && r.value.byte == byte
  {
    var s := w(StartSet(), t);
    if !s.Fire? || !AllInRange(input, s.time + FullBit(p)) then None
    else Some(UartCase([Frame(Some(Text("START")), s.time, s.time + FullBit(p))], s.time + FullBit(p), byte))
  }

  /** `READ_BYTE` (lines 91-105): one frame over the data bits, labelled
      with the byte folded from the levels in their middles. */
  function ByteSpec(input: Entries<Waveform>, p: UartParams, t: real): (r: Option<UartCase>)
    requires ValidParams(p)
    ensures r.Some? ==> r.value.time >= t && |r.value.frames| == 1
  {
    var end := BitStart(t, p, p.dataBits);
    if !AllInRange(input, end) then None
    else
      var b := FoldMsb(FrameBits(input, t, p, p.dataBits));
      Some(UartCase([Seal(OpenFrame(t, None), Some(Num(b)), end)], end, b))
  }

  /** `CHECK_PARITY` (lines 106-127): without a parity bit nothing; with
      one, a frame over the parity bit labelled with the verdict. */
  function ParitySpec(input: Entries<Waveform>, p: UartParams, t: real, byte: nat): (r: Option<UartCase>)
    requires ValidParams(p)
    ensures r.Some? ==> r.value.time >= t && r.value.byte == byte
  {
    if p.parityBit == NoParity then Some(UartCase([], t, byte))
    else if !AllInRange(input, t + FullBit(p)) then None
    else
      var parityBit := ToBit(LineAt(input, "data", BitCentre(t, p, 0)));
      var parityOk := ParityHolds(Ones(byte, p.dataBits), parityBit, p.parityBit == Odd);
      Some(UartCase([Frame(Some(Text(ParityLabel(parityOk))), t, t + FullBit(p))], t + FullBit(p), byte))
  }

  /** The start edge case runs to its end exactly when the edge comes and
      the input has a sample one full bit after it, and then appends the
      frame `"START"` over that bit. */
  lemma {:induction false} StartOutcome(w: Waits, input: Entries<Waveform>, p: UartParams, t: real, byte: nat)
    requires Forward(w) && ValidParams(p) && t >= 0.0
    ensures var s := w(StartSet(), t);
      (StartSpec(w, input, p, t, byte).Some? <==> s.Fire? && AllInRange(input, s.time + FullBit(p)))
      && (StartSpec(w, input, p, t, byte).Some? ==>
            StartSpec(w, input, p, t, byte).value
              == UartCase([Frame(Some(Text("START")), s.time, s.time + FullBit(p))], s.time + FullBit(p), byte))
  {
  }

  /** Reading a byte runs to its end exactly when the input has a sample
      at the end of its last data bit, and then appends one frame over the
      data bits labelled with the folded byte. */
  lemma {:induction false} ByteOutcome(input: Entries<Waveform>, p: UartParams, t: real)
    requires ValidParams(p)
    ensures ByteSpec(input, p, t).Some? <==> AllInRange(input, BitStart(t, p, p.dataBits))
    ensures ByteSpec(input, p, t).Some? ==>
      var b := FoldMsb(FrameBits(input, t, p, p.dataBits));
      var end := BitStart(t, p, p.dataBits);
      ByteSpec(input, p, t).value == UartCase([Seal(OpenFrame(t, None), Some(Num(b)), end)], end, b)
  {
  }

  /** With a parity bit, the case runs to its end exactly when the input
      has a sample at the end of the parity bit, and then appends the
      verdict on the level in the middle of that bit. */
  lemma {:induction false} ParityOutcome(input: Entries<Waveform>, p: UartParams, t: real, byte: nat)
    requires ValidParams(p) && p.parityBit != NoParity
    ensures ParitySpec(input, p, t, byte).Some? <==> AllInRange(input, t + FullBit(p))
    ensures ParitySpec(input, p, t, byte).Some? ==>
      var parityBit := ToBit(LineAt(input, "data", BitCentre(t, p, 0)));
      var parityOk := ParityHolds(Ones(byte, p.dataBits), parityBit, p.parityBit == Odd);
      ParitySpec(input, p, t, byte).value
        == UartCase([Frame(Some(Text(ParityLabel(parityOk))), t, t + FullBit(p))], t + FullBit(p), byte)
  {
  }

  /** `WAIT_STOP` (lines 128-140): a frame `"START"` over the stop bits. */
  function StopSpec(input: Entries<Waveform>, p: UartParams, t: real, byte: nat): (r: Option<UartCase>)
    requires ValidParams(p)
    ensures r.Some? ==> r.value.time >= t && |r.value.frames| == 1 && r.value.byte == byte
  {
    var end := BitStart(t, p, p.stopBits);
    if !AllInRange(input, end) then None
    else Some(UartCase([Frame(Some(Text("START")), t, end)], end, byte))
  }

  /** One case of the `switch` of lines 76-141 for the state `fsm`, with
      the cursor at `t` and `byte` as the last byte read; None when one of
      its waits does not resolve. The `waitTime`s of a case resolve
      exactly when the input has a sample at the last of them, since a
      time without a sample is followed only by times without one. */
  function CaseSpec(w: Waits, input: Entries<Waveform>, p: UartParams, fsm: UartState, t: real, byte: nat): (r: Option<UartCase>)
    requires Forward(w) && ValidParams(p) && t >= 0.0
    ensures r.Some? ==> r.value.time >= t
    ensures r.Some? && fsm != ReadByte ==> r.value.byte == byte
  {
    match fsm
    case WaitIdle => IdleSpec(w, t, byte)
    case WaitStart => StartSpec(w, input, p, t, byte)
    case ReadByte => ByteSpec(input, p, t)
    case CheckParity => ParitySpec(input, p, t, byte)
    case WaitStop => StopSpec(input, p, t, byte)
  }

  /** A byte read to its end is one frame over the data bits, labelled
      with the byte unless it is 0; splitting the byte most significant
      bit first gives back the levels sampled in the middle of each bit. */
  lemma {:induction false} ByteFrame(input: Entries<Waveform>, p: UartParams, t: real)
    requires ValidParams(p)
    requires ByteSpec(input, p, t).Some?
    ensures var c := ByteSpec(input, p, t).value;
            |c.frames| == 1 && c.byte < Pow2(p.dataBits)
            && c.frames[0].start == t && c.frames[0].end == BitStart(t, p, p.dataBits)
            && c.frames[0].data == (if c.byte != 0 then Some(Num(c.byte)) else None)
            && ToBitsMsb(c.byte, p.dataBits) == FrameBits(input, t, p, p.dataBits)
  {
    FoldThenSplit(FrameBits(input, t, p, p.dataBits));
  }

  /** Where `frameDecode` stands after some cases: the state, the frames
      appended so far, the cursor, `byte`, and whether a case has stopped
      short. */
  datatype UartProgress = UartProgress(fsm: UartState, frames: seq<Frame>, time: real, byte: nat, stopped: bool)

  /** `n` turns of the `while (true)` of lines 75-142 from `p0`; once a
      case stops short nothing more happens. */
  function RunSpec(w: Waits, input: Entries<Waveform>, p: UartParams, p0: UartProgress, n: nat): (r: UartProgress)
    requires Forward(w) && ValidParams(p) && p0.time >= 0.0
    ensures r.time >= p0.time
    decreases n
  {
    if n == 0 then p0
    else
      var prev := RunSpec(w, input, p, p0, n - 1);
      if prev.stopped then prev
      else
        match CaseSpec(w, input, p, prev.fsm, prev.time, prev.byte)
        case None => prev.(stopped := true)
        case Some(c) => UartProgress(NextState(prev.fsm, p.parityBit), prev.frames + c.frames, c.time, c.byte, false)
  }

  /** A run that has not stopped after `n` turns is in the state `n` steps
      of the state machine lead to. */
  lemma {:induction false} RunFollowsStates(w: Waits, input: Entries<Waveform>, p: UartParams, p0: UartProgress, n: nat)
    requires Forward(w) && ValidParams(p) && p0.time >= 0.0
    ensures !RunSpec(w, input, p, p0, n).stopped ==> RunSpec(w, input, p, p0, n).fsm == Steps(p0.fsm, p.parityBit, n)
  {
    if n > 0 {
      RunStep(w, input, p, p0, n);
      RunFollowsStates(w, input, p, p0, n - 1);
      StepsAdd(p0.fsm, p.parityBit, n - 1, 1);
    }
  }

  /** A turn that has not stopped came after one that had not, and moved
      the machine one state on. */
  lemma {:induction false} RunStep(w: Waits, input: Entries<Waveform>, p: UartParams, p0: UartProgress, n: nat)
    requires Forward(w) && ValidParams(p) && p0.time >= 0.0 && n > 0
    ensures var r := RunSpec(w, input, p, p0, n);
      var prev := RunSpec(w, input, p, p0, n - 1);
      !r.stopped ==> !prev.stopped && r.fsm == NextState(prev.fsm, p.parityBit)
  {
  }

  /** Once a case has stopped short, the run stays where it stopped. */
  lemma {:induction false} RunStays(w: Waits, input: Entries<Waveform>, p: UartParams, p0: UartProgress, k: nat, n: nat)
    requires Forward(w) && ValidParams(p) && p0.time >= 0.0
    requires k <= n && RunSpec(w, input, p, p0, k).stopped
    ensures RunSpec(w, input, p, p0, n) == RunSpec(w, input, p, p0, k)
    decreases n
  {
    if n > k {
      RunStays(w, input, p, p0, k, n - 1);
    }
  }

  /** The decoder stands where `n` turns of `RunSpec` from `p0` lead, none
      of which stopped short: `now` has the frames they appended after
      those of `s0`. */
  ghost predicate Tracks(w: Waits, input: Entries<Waveform>, p: UartParams, p0: UartProgress, n: nat, s0: Snapshot, now: Snapshot,
                         fsm: UartState, byte: nat)
    requires Forward(w) && ValidParams(p) && p0.time >= 0.0
  {
    var r := RunSpec(w, input, p, p0, n);
    !r.stopped && fsm == r.fsm && byte == r.byte && "bytes" in s0.out
    && now == Snapshot(r.time, s0.out["bytes" := s0.out["bytes"] + r.frames], s0.started, s0.emitted,
                       s0.timeWait, s0.triggerWait)
  }

  /** A case that runs to its end takes `Tracks` one turn further. */
  lemma {:induction false} TrackNext(w: Waits, input: Entries<Waveform>, p: UartParams, p0: UartProgress, n: nat, s0: Snapshot,
                                     now: Snapshot, fsm: UartState, byte: nat, now': Snapshot)
    requires Forward(w) && ValidParams(p) && p0.time >= 0.0
    requires Tracks(w, input, p, p0, n, s0, now, fsm, byte)
    requires CaseSpec(w, input, p, fsm, now.time, byte).Some?
    requires var c := CaseSpec(w, input, p, fsm, now.time, byte).value;
      now' == Snapshot(c.time, now.out["bytes" := now.out["bytes"] + c.frames], now.started, now.emitted,
                       now.timeWait, now.triggerWait)
    ensures var c := CaseSpec(w, input, p, fsm, now.time, byte).value;
      Tracks(w, input, p, p0, n + 1, s0, now', NextState(fsm, p.parityBit), c.byte)
  {
    var r := RunSpec(w, input, p, p0, n);
    var c := CaseSpec(w, input, p, fsm, now.time, byte).value;
    assert s0.out["bytes"] + r.frames + c.frames == s0.out["bytes"] + (r.frames + c.frames);
  }

  /** A case that stops short ends the run: every later turn of `RunSpec`
      stays where it stopped, with the frames of the turns before. */
  lemma {:induction false} TrackStop(w: Waits, input: Entries<Waveform>, p: UartParams, p0: UartProgress, n: nat, fuel: nat,
                                     s0: Snapshot, now: Snapshot, fsm: UartState, byte: nat)
    requires Forward(w) && ValidParams(p) && p0.time >= 0.0 && n < fuel
    requires Tracks(w, input, p, p0, n, s0, now, fsm, byte)
    requires CaseSpec(w, input, p, fsm, now.time, byte).None?
    ensures var r := RunSpec(w, input, p, p0, fuel);
      r.stopped && fsm == r.fsm && now.out == s0.out["bytes" := s0.out["bytes"] + r.frames]
  {
    RunStays(w, input, p, p0, n + 1, fuel);
  }

  /** `frameDecode` (lines 65-143): the state machine from `WAIT_IDLE`,
      for at most `fuel` cases, stopping at the first case that does not
      run to its end. While no frame of `"bytes"` was open when it began,
      it does what `RunSpec` says: the frames of the cases that ran to
      their end are appended, and a case that stopped short appended
      nothing and handed on what its wait did. */
  method FrameDecode(dec: FrameDecoderStream, ghost w: Waits, p: UartParams, fuel: nat, ghost s0: Snapshot)
    returns (fsm: UartState)
    requires Decoding(dec, w) && ValidParams(p) && s0 == Now(dec)
    modifies dec`timeOffset, dec`emitted, dec`timeSuspension, dec`triggerSuspension
    modifies dec`startedFrame, dec`currentOutput
    ensures Running(dec) && dec.currentInput == old(dec.currentInput)
    ensures "bytes" !in s0.started ==>
      var r := RunSpec(w, dec.currentInput.value, p, UartProgress(WaitIdle, [], s0.time, 0, false), fuel);
      fsm == r.fsm
      && (!r.stopped ==> Did(dec, s0, r.frames, r.time))
      && (r.stopped ==> Halted(dec, s0, r.frames) && dec.currentOutput == s0.out["bytes" := s0.out["bytes"] + r.frames])
  {
    fsm := WaitIdle;
    var byte: nat := 0;
    ghost var input := dec.currentInput.value;
    ghost var p0 := UartProgress(WaitIdle, [], s0.time, 0, false);
    if "bytes" !in s0.started {
      NoFrames(s0.out);
    }
    var steps := 0;
    while steps < fuel
      invariant steps <= fuel
      invariant Decoding(dec, w) && dec.currentInput == Some(input)
      invariant "bytes" !in s0.started ==> Tracks(w, input, p, p0, steps, s0, Now(dec), fsm, byte)
    {
      ghost var now := Now(dec);
      var ok, byte' := RunState(dec, w, p, fsm, byte, now);
      if !ok {
        if "bytes" !in s0.started {
          TrackStop(w, input, p, p0, steps, fuel, s0, now, fsm, byte);
          HaltedAfter(dec, s0, now, RunSpec(w, input, p, p0, fuel).frames);
        }
        return;
      }
      if "bytes" !in s0.started {
        TrackNext(w, input, p, p0, steps, s0, now, fsm, byte, Now(dec));
      }
      fsm, byte := NextState(fsm, p.parityBit), byte';
      steps := steps + 1;
    }
  }

  /** One case of the `switch (fsm)` of lines 76-141, for the state
      `fsm`: `ok` is whether it ran to its end, and then it did what
      `CaseSpec` says; otherwise it appended nothing and handed on what
      its wait did. */
  method RunState(dec: FrameDecoderStream, ghost w: Waits, p: UartParams, fsm: UartState, byte: nat, ghost s0: Snapshot)
    returns (ok: bool, byte': nat)
    requires Decoding(dec, w) && ValidParams(p) && s0 == Now(dec)
    modifies dec`timeOffset, dec`emitted, dec`timeSuspension, dec`triggerSuspension
    modifies dec`startedFrame, dec`currentOutput
    ensures Decoding(dec, w) && dec.currentInput == old(dec.currentInput)
    ensures "bytes" !in s0.started ==>
      var c := CaseSpec(w, dec.currentInput.value, p, fsm, s0.time, byte);
      (ok <==> c.Some?) && (ok ==> Did(dec, s0, c.value.frames, c.value.time) && byte' == c.value.byte)
    ensures !ok ==> Halted(dec, s0, []) && dec.currentOutput == s0.out
  {
    byte' := byte;
    ghost var snap: Snapshot;
    match fsm {
      case WaitIdle =>
        ok := AwaitIdle(dec, w, byte, s0);
      case WaitStart =>
        ok := AwaitStart(dec, w, p, byte, s0);
      case ReadByte =>
        ok, byte', snap := ReadData(dec, p);
      case CheckParity =>
        var parityOk;
        ok, parityOk, snap := ParityCase(dec, p, byte, s0);
      case WaitStop =>
        var lineHigh;
        ok, lineHigh, snap := AwaitStop(dec, p);
    }
  }

  /** `WAIT_IDLE` (lines 78-82). */
  method AwaitIdle(dec: FrameDecoderStream, ghost w: Waits, byte: nat, ghost s0: Snapshot) returns (ok: bool)
    requires Decoding(dec, w) && s0 == Now(dec)
    modifies dec`timeOffset, dec`triggerSuspension, dec`emitted
    ensures Decoding(dec, w)
    ensures var c := IdleSpec(w, s0.time, byte);
      (ok <==> c.Some?) && (ok ==> Did(dec, s0, c.value.frames, c.value.time))
    ensures !ok ==> Halted(dec, s0, []) && dec.currentOutput == s0.out
  {
    var cond, values;
    ok, cond, values := AwaitWith(dec, IdleSet(), w);
    if ok {
      NoFrames(s0.out);
    } else {
      HaltedAtOnce(dec, s0);
    }
  }

  /** `WAIT_START` (lines 83-90): the falling edge, then the start bit. */
  method AwaitStart(dec: FrameDecoderStream, ghost w: Waits, p: UartParams, byte: nat, ghost s0: Snapshot) returns (ok: bool)
    requires Decoding(dec, w) && ValidParams(p) && s0 == Now(dec)
    modifies dec`timeOffset, dec`emitted, dec`timeSuspension, dec`triggerSuspension
    modifies dec`startedFrame, dec`currentOutput
    ensures Running(dec) && dec.currentInput == old(dec.currentInput)
    ensures "bytes" !in s0.started ==>
      var c := StartSpec(w, dec.currentInput.value, p, s0.time, byte);
      (ok <==> c.Some?) && (ok ==> Did(dec, s0, c.value.frames, c.value.time))
    ensures !ok ==> Halted(dec, s0, []) && dec.currentOutput == s0.out
  {
    var cond, values;
    ok, cond, values := AwaitWith(dec, StartSet(), w);
    if !ok {
      HaltedAtOnce(dec, s0);
      return;
    }
    ok := StartAfterEdge(dec, w, p, byte, s0);
  }

  /** The rest of `WAIT_START` once the falling edge has been found: the
      frame `"START"` over one full bit from the edge. */
  method StartAfterEdge(dec: FrameDecoderStream, ghost w: Waits, p: UartParams, byte: nat, ghost s0: Snapshot)
    returns (ok: bool)
    requires Running(dec) && Forward(w) && ValidParams(p) && "bytes" in s0.out && s0.time >= 0.0
    requires w(StartSet(), s0.time).Fire? && dec.timeOffset == w(StartSet(), s0.time).time
    requires dec.currentOutput == s0.out && dec.startedFrame == s0.started && dec.emitted == s0.emitted
    requires SameWaits(dec, s0)
    modifies dec`timeOffset, dec`emitted, dec`timeSuspension
    modifies dec`startedFrame, dec`currentOutput
    ensures Running(dec) && dec.currentInput == old(dec.currentInput)
    ensures "bytes" !in s0.started ==>
      var c := StartSpec(w, dec.currentInput.value, p, s0.time, byte);
      (ok <==> c.Some?) && (ok ==> Did(dec, s0, c.value.frames, c.value.time))
    ensures !ok ==> Halted(dec, s0, []) && dec.currentOutput == s0.out
  {
    StartOutcome(w, dec.currentInput.value, p, s0.time, byte);
    ghost var s1;
    ok, s1 := StartBit(dec, p);
    if ok {
      AppendedDid(dec, s1, Frame(Some(Text("START")), s1.time, s1.time + FullBit(p)));
    }
  }

  /** `CHECK_PARITY` (lines 106-127): nothing to do without a parity bit. */
  method ParityCase(dec: FrameDecoderStream, p: UartParams, byte: nat, ghost s0: Snapshot)
    returns (ok: bool, parityOk: bool, ghost s1: Snapshot)
    requires Running(dec) && ValidParams(p) && s0 == Now(dec)
    modifies dec`timeOffset, dec`emitted, dec`timeSuspension
    modifies dec`startedFrame, dec`currentOutput
    ensures Running(dec)
    ensures "bytes" !in s0.started ==>
      var c := ParitySpec(dec.currentInput.value, p, s0.time, byte);
      (ok <==> c.Some?) && (ok ==> Did(dec, s0, c.value.frames, c.value.time))
    ensures !ok ==> Halted(dec, s0, []) && dec.currentOutput == s0.out
  {
    if p.parityBit == NoParity {
      NoFrames(s0.out);
      return true, false, s0;
    }
    ok, parityOk, s1 := CheckParityBit(dec, p, byte);
  }

  /** The decoder's constructor: the engine with the one output `"bytes"`. */
  method NewUartDecoder() returns (dec: FrameDecoderStream)
    ensures fresh(dec) && dec.Valid() && dec.outputs == ["bytes"]
    ensures dec.currentInput == None && dec.currentOutput == map["bytes" := []]
  {
    dec := new FrameDecoderStream(["bytes"]);
  }

  /** One `decode` of the UART decoder: the engine's `decode`, and, when
      that starts the body, `frameDecode` on the new input. Decoding from
      the start, `"bytes"` then holds exactly the frames `RunSpec` lists;
      what was handed on is the flush of `reset`, then, if a case stopped
      short, what its wait handed on. A run that did not stop leaves no
      wait recorded, so the next `decode` starts the body again; one that
      stopped on a wait that suspended leaves that wait in exactly one of
      the two records, and one whose wait threw leaves neither. */
  method DecodeUart(dec: FrameDecoderStream, p: UartParams, input: Entries<Waveform>, fromStart: bool, fuel: nat)
    returns (step: DecodeStep)
    requires dec.Valid() && WellFormedInput(input) && "bytes" in dec.outputs && ValidParams(p)
    modifies dec
    ensures dec.Valid()
    ensures step.BodyStarted? <==> fromStart || (old(dec.timeSuspension).None? && old(dec.triggerSuspension).None?)
    ensures step.BodyStarted? ==> dec.currentInput == Some(input)
    ensures step.BodyStarted? && fromStart ==>
      var r := RunSpec(EngineWaits(input), input, p, UartProgress(WaitIdle, [], 0.0, 0, false), fuel);
      var e0 := old(dec.emitted) + FlushLog(dec.outputs, old(dec.currentOutput));
      dec.currentOutput["bytes"] == r.frames
      && (!r.stopped ==> dec.timeOffset == r.time && dec.emitted == e0
                         && dec.timeSuspension.None? && dec.triggerSuspension.None?)
      && (r.stopped ==>
            (dec.emitted == e0 && dec.timeSuspension.None? && dec.triggerSuspension.None?)
            || (dec.emitted == e0 + FlushLog(dec.outputs, dec.currentOutput)
                && dec.timeSuspension.Some? != dec.triggerSuspension.Some?))
  {
    step := dec.Decode(input, fromStart);
    if step.BodyStarted? {
      var _ := FrameDecode(dec, EngineWaits(input), p, fuel, Now(dec));
    }
  }
}
