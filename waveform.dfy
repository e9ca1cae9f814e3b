/** Sample buffers and frames (src/core/Waveform.ts). */
module Waveforms {
  import opened Wrappers

  /** `"analog" | "binary" | "frame"` */
  datatype WaveformType = Analog | Binary | FrameType

  type Bit = b: int | 0 <= b <= 1

  /** The label of a frame: the source allows a string or a number. */
  datatype Label = Text(text: string) | Num(num: int)

  /** A labelled interval of time. `data` is None when the frame was sealed
      without any label (JavaScript `undefined`). */
  datatype Frame = Frame(data: Option<Label>, start: real, end: real)

  datatype Waveform =
    | AnalogWave(samples: seq<real>, sampleRate: real)
    | BinaryWave(bits: seq<Bit>, sampleRate: real)
    | FrameWave(frames: seq<Frame>)
  {
    function DataType(): WaveformType {
      match this
      case AnalogWave(_, _) => Analog
      case BinaryWave(_, _) => Binary
      case FrameWave(_) => FrameType
    }

    /** Analog and binary waveforms are sampled at a fixed rate. */
    predicate Sampled() {
      !FrameWave?
    }

    function Length(): nat {
      match this
      case AnalogWave(s, _) => |s|
      case BinaryWave(b, _) => |b|
      case FrameWave(f) => |f|
    }

    /** `waveform.data[i]` read as a number. */
    function At(i: nat): real
      requires Sampled() && i < Length()
    {
      match this
      case AnalogWave(s, _) => s[i]
      case BinaryWave(b, _) => b[i] as real
    }
  }

  /** An input waveform the decoder can sample: analog or binary, positive rate. */
  predicate SampledInput(w: Waveform) {
    w.Sampled() && w.sampleRate > 0.0
  }
}
