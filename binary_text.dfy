/** The simulated stream that turns a text of zeros and ones into a
    binary waveform (src/streams/simulated/BinaryTextStream.ts). */
module BinaryText {
  import opened Wrappers
  import opened Waveforms
  import opened Streams

  /** Lines 20-24: one binary output `"data"` and the parameters `"data"`
      (the text, default `"01010101"`) and `"period"` (default 1). */
  function Metadata(): StreamMetadata {
    StreamMetadata("Binary from text", ["data", "period"], [("data", TypeName(Binary))])
  }

  function DefaultParameters(): map<string, ParamValue> {
    map["data" := PText("01010101"), "period" := PNum(1.0)]
  }

  /** `data.split("").map((c) => c === "1" ? 1 : 0)`: one bit per
      character, 1 exactly for `'1'`. */
  function ParseBits(text: string): (bits: seq<Bit>)
    ensures |bits| == |text|
    ensures forall i :: 0 <= i < |text| ==> (bits[i] == 1 <==> text[i] == '1')
    decreases |text|
  {
    if text == [] then [] else [if text[0] == '1' then 1 else 0] + ParseBits(text[1..])
  }

  /** The bits written as a text of `'0'` and `'1'`. */
  function BitsText(bits: seq<Bit>): (text: string)
    ensures |text| == |bits|
    ensures forall i :: 0 <= i < |bits| ==> text[i] == (if bits[i] == 1 then '1' else '0')
    decreases |bits|
  {
    if bits == [] then [] else [if bits[0] == 1 then '1' else '0'] + BitsText(bits[1..])
  }

  predicate IsBinaryText(text: string) {
    forall i :: 0 <= i < |text| ==> text[i] == '0' || text[i] == '1'
  }

  /** Parsing the written bits gives the bits back. */
  lemma {:induction false} ParseWritten(bits: seq<Bit>)
    ensures ParseBits(BitsText(bits)) == bits
  {
    var text := BitsText(bits);
    assert forall i :: 0 <= i < |bits| ==> ParseBits(text)[i] == bits[i];
  }

  /** A text is written back as itself exactly when it holds nothing but
      zeros and ones: every other character reads as 0 and is lost. */
  lemma {:induction false} WrittenParse(text: string)
    ensures BitsText(ParseBits(text)) == text <==> IsBinaryText(text)
  {
    var back := BitsText(ParseBits(text));
    if IsBinaryText(text) {
      forall i | 0 <= i < |text|
        ensures back[i] == text[i]
      {
      }
    } else {
      var i :| 0 <= i < |text| && text[i] != '0' && text[i] != '1';
      assert back[i] != text[i];
    }
  }

  /** The waveform `start` hands on: binary, one sample per character,
      `period` seconds apart. */
  function TextWaveform(text: string, period: real): (w: Waveform)
    requires period > 0.0
    ensures w.DataType() == Binary && w.Length() == |text|
    ensures w.sampleRate * period == 1.0
  {
    BinaryWave(ParseBits(text), 1.0 / period)
  }

  /** The stream with its parameter values in place: text data and a
      positive period, as the parameter declarations demand. */
  ghost predicate Configured(s: WaveformStream)
    reads s
  {
    s.metadata == Metadata()
    && "data" in s.parameterValues && s.parameterValues["data"].PText?
    && "period" in s.parameterValues && s.parameterValues["period"].PNum?
    && s.parameterValues["period"].num > 0.0
  }

  /** Lines 29-31 */
  method NewBinaryTextStream(initialParameters: map<string, ParamValue>) returns (s: WaveformStream)
    ensures fresh(s) && s.metadata == Metadata() && s.parameterValues == initialParameters
    ensures s.callbacks == map[] && s.invoked == []
  {
    s := new WaveformStream(Metadata(), initialParameters);
  }

  /** Lines 33-40: one waveform, on the channel `"data"`, handed to the
      callback of that channel if it has one. */
  method Start(s: WaveformStream)
    requires Configured(s)
    modifies s`invoked
    ensures var w := TextWaveform(s.parameterValues["data"].text, s.parameterValues["period"].num);
            s.invoked == old(s.invoked) + (if "data" in s.callbacks then [(s.callbacks["data"], w)] else [])
  {
    var text := s.parameterValues["data"].text;
    var period := s.parameterValues["period"].num;
    var bits := ParseBits(text);
    s.OnWaveformReady([("data", BinaryWave(bits, 1.0 / period))]);
  }

  /** Lines 42-44: every parameter change is accepted. */
  function OnSetParameter(id: string, value: ParamValue): (r: Outcome)
    ensures r == Pass
  {
    Pass
  }
}
