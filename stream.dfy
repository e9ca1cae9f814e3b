/** Waveform streams and their registry (src/core/Stream.ts): a stream
    keeps a copy of its parameter values and a callback per output
    channel, and hands every waveform it produces to the callback of its
    channel; the registry lists the stream implementations by category. */
module Streams {
  import opened Wrappers
  import opened Util
  import opened Waveforms

  /** A parameter value: the source's parameters are text, numbers or
      options. */
  datatype ParamValue = PText(text: string) | PNum(num: real) | PBool(flag: bool)

  /** How a stream declares one output channel. Stream metadata declares a
      bare type name; decoder metadata declares an object with an optional
      display name and a `dataType`. */
  datatype OutputDecl = TypeName(t: WaveformType) | Described(name: Option<string>, dataType: WaveformType)

  datatype StreamMetadata = StreamMetadata(name: string, params: seq<string>, output: Entries<OutputDecl>)

  /** The only callback the core installs: the session's closure that runs
      `updateWaveform` on the waveform instance at `index` of its list. */
  datatype Callback = UpdateWaveformOf(index: nat)

  /** The callbacks `onWaveformReady` runs for `data`, in entry order: one
      per entry whose channel has a callback, none for the others. */
  function Calls(data: Entries<Waveform>, callbacks: map<string, Callback>): (r: seq<(Callback, Waveform)>)
    ensures |r| <= |data|
    ensures data != [] && data[0].0 in callbacks ==> r != [] && r[0] == (callbacks[data[0].0], data[0].1)
  {
    if data == [] then []
    else (if data[0].0 in callbacks then [(callbacks[data[0].0], data[0].1)] else [])
         + Calls(data[1..], callbacks)
  }

  /** Handing over two batches calls what each batch calls, in order. */
  lemma {:induction false} CallsConcat(a: Entries<Waveform>, b: Entries<Waveform>, callbacks: map<string, Callback>)
    ensures Calls(a + b, callbacks) == Calls(a, callbacks) + Calls(b, callbacks)
    decreases |a|
  {
    if a != [] {
      assert (a + b)[0] == a[0] && (a + b)[1..] == a[1..] + b;
      CallsConcat(a[1..], b, callbacks);
    } else {
      assert a + b == b;
    }
  }

  /** Every entry whose channel has a callback reaches that callback with
      its waveform, and every call comes from such an entry. */
  lemma {:induction false} CallsExactly(data: Entries<Waveform>, callbacks: map<string, Callback>, c: Callback, w: Waveform)
    ensures (c, w) in Calls(data, callbacks)
            <==> exists i :: 0 <= i < |data| && data[i].0 in callbacks && callbacks[data[i].0] == c && data[i].1 == w
    decreases |data|
  {
    if data != [] {
      CallsExactly(data[1..], callbacks, c, w);
      if (c, w) in Calls(data[1..], callbacks) {
        var i :| 0 <= i < |data[1..]| && data[1..][i].0 in callbacks && callbacks[data[1..][i].0] == c && data[1..][i].1 == w;
        assert data[i + 1] == data[1..][i];
      }
      if exists i :: 0 <= i < |data| && data[i].0 in callbacks && callbacks[data[i].0] == c && data[i].1 == w {
        var i :| 0 <= i < |data| && data[i].0 in callbacks && callbacks[data[i].0] == c && data[i].1 == w;
        if i > 0 {
          assert data[1..][i - 1] == data[i];
        }
      }
    }
  }

  class WaveformStream {
    const metadata: StreamMetadata
    var parameterValues: map<string, ParamValue>
    var callbacks: map<string, Callback>
    /** The callbacks run so far, with the waveform each was given. */
    var invoked: seq<(Callback, Waveform)>

    /** Lines 33-35: the stream keeps its own copy of the default values
        and starts with no callback. */
    constructor(metadata: StreamMetadata, defaultParameters: map<string, ParamValue>)
      ensures this.metadata == metadata && parameterValues == defaultParameters
      ensures callbacks == map[] && invoked == []
      ensures forall p :: GetParameter(p) == (if p in defaultParameters then Some(defaultParameters[p]) else None)
    {
      this.metadata := metadata;
      parameterValues := defaultParameters;
      callbacks := map[];
      invoked := [];
    }

    /** Lines 73-75: the stored value of `parameter`, undefined when the
        stream has no such parameter. */
    function GetParameter(parameter: string): (r: Option<ParamValue>)
      reads this
      ensures r.Some? <==> parameter in parameterValues
    {
      if parameter in parameterValues then Some(parameterValues[parameter]) else None
    }

    /** Lines 49-52: `ch` must be a declared output; its callback is
        replaced and every other channel keeps its own. */
    method SetCallback(ch: string, callback: Callback)
      requires HasKey(metadata.output, ch)
      modifies this`callbacks
      ensures callbacks == old(callbacks)[ch := callback]
      ensures forall c :: c != ch ==> (c in callbacks <==> c in old(callbacks))
    {
      callbacks := callbacks[ch := callback];
    }

    /** Lines 58-68: runs the callback of each entry's channel, in entry
        order, skipping channels without one. */
    method OnWaveformReady(data: Entries<Waveform>)
      modifies this`invoked
      ensures invoked == old(invoked) + Calls(data, callbacks)
    {
      var i := 0;
      while i < |data|
        invariant 0 <= i <= |data|
        invariant invoked == old(invoked) + Calls(data[..i], callbacks)
      {
        assert data[..i + 1] == data[..i] + [data[i]];
        CallsConcat(data[..i], [data[i]], callbacks);
        var (ch, waveform) := data[i];
        if ch in callbacks {
          invoked := invoked + [(callbacks[ch], waveform)];
        }
        i := i + 1;
      }
      assert data[..i] == data;
    }
  }

  /** `"Simulated" | "Decoder" | "Serial Device" | "Network Device" | "Other"` */
  datatype StreamCategory = Simulated | Decoder | SerialDevice | NetworkDevice | Other

  /** A registered implementation: its metadata and the name of its class. */
  datatype StreamItem = StreamItem(metadata: StreamMetadata, stream: string)

  /** The module-level `streamDatabase` of lines 94-99. */
  class StreamRegistry {
    var database: map<StreamCategory, seq<StreamItem>>

    constructor()
      ensures database == map[]
    {
      database := map[];
    }

    /** Lines 111-123: a new category gets a one-element list, a known one
        gets the item appended; the other categories are left alone. */
    method RegisterStream(category: StreamCategory, metadata: StreamMetadata, stream: string)
      modifies this
      ensures category in database
      ensures category !in old(database) ==> database[category] == [StreamItem(metadata, stream)]
      ensures category in old(database) ==> database[category] == old(database)[category] + [StreamItem(metadata, stream)]
      ensures forall c :: c != category ==> (c in database <==> c in old(database))
      ensures forall c :: c != category && c in old(database) ==> database[c] == old(database)[c]
    {
      if category !in database {
        database := database[category := [StreamItem(metadata, stream)]];
        return;
      }
      database := database[category := database[category] + [StreamItem(metadata, stream)]];
    }

    /** Lines 128-130: the registry as it stands. */
    function GetStreamList(): (r: map<StreamCategory, seq<StreamItem>>)
      reads this
      ensures r.Keys == database.Keys && forall c :: c in r ==> r[c] == database[c]
    {
      database
    }
  }
}
