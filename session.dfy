/** The session (src/core/Session.ts): the list of waveform instances
    shown to the user, one per output channel of every stream added, and
    the rules by which a stream's new data replaces an instance's
    waveform and triggers a render. */
module Sessions {
  import opened Wrappers
  import opened Util
  import opened Waveforms
  import opened Streams

  /** One output channel of a stream as the session shows it. `dataType`
      is None (undefined) when the stream declared the channel by a bare
      type name, which has no `dataType` property. */
  datatype WaveformInstance = WaveformInstance(
    name: string,
    dataType: Option<WaveformType>,
    waveform: Option<Waveform>,
    stream: WaveformStream,
    locked: bool,
    append: bool)

  /** `outputMetadata.name ?? outputCh` */
  function DisplayName(ch: string, decl: OutputDecl): (s: string)
    ensures decl.Described? && decl.name.Some? ==> s == decl.name.value
    ensures !(decl.Described? && decl.name.Some?) ==> s == ch
  {
    match decl
    case Described(Some(n), _) => n
    case _ => ch
  }

  /** `outputMetadata.dataType`: undefined exactly for an output declared
      by a bare type name, the declared type otherwise. */
  function DeclaredType(decl: OutputDecl): (r: Option<WaveformType>)
    ensures r.None? <==> decl.TypeName?
    ensures decl.Described? ==> r == Some(decl.dataType)
  {
    match decl
    case Described(_, t) => Some(t)
    case TypeName(_) => None
  }

  /** Lines 47-54: the instance created for the output `ch`. */
  function NewInstance(streamName: string, stream: WaveformStream, ch: string, decl: OutputDecl): (r: WaveformInstance)
    ensures r.name == streamName + " (" + DisplayName(ch, decl) + ")"
    ensures !r.locked && !r.append && r.waveform == None && r.stream == stream
  {
    WaveformInstance(streamName + " (" + DisplayName(ch, decl) + ")", DeclaredType(decl), None, stream, false, false)
  }

  /** The callbacks after the outputs `outs` have each been given the
      callback of the instance appended for it, the first at `base`. */
  function Registered(callbacks: map<string, Callback>, outs: Entries<OutputDecl>, base: nat): map<string, Callback>
    decreases |outs|
  {
    if outs == [] then callbacks
    else Registered(callbacks, outs[..|outs| - 1], base)[outs[|outs| - 1].0 := UpdateWaveformOf(base + |outs| - 1)]
  }

  /** With distinct channel names, output `i` ends up with the callback of
      instance `base + i`, and a channel that is not an output keeps the
      callback it had. */
  lemma {:induction false} RegisteredAt(callbacks: map<string, Callback>, outs: Entries<OutputDecl>, base: nat, ch: string)
    requires DistinctKeys(outs)
    ensures forall i :: 0 <= i < |outs| && outs[i].0 == ch ==>
              ch in Registered(callbacks, outs, base) && Registered(callbacks, outs, base)[ch] == UpdateWaveformOf(base + i)
    ensures !HasKey(outs, ch) ==>
              (ch in Registered(callbacks, outs, base) <==> ch in callbacks)
              && (ch in callbacks ==> Registered(callbacks, outs, base)[ch] == callbacks[ch])
    decreases |outs|
  {
    if outs != [] {
      var init := outs[..|outs| - 1];
      assert DistinctKeys(init);
      RegisteredAt(callbacks, init, base, ch);
      forall i | 0 <= i < |outs| && outs[i].0 == ch
        ensures Registered(callbacks, outs, base)[ch] == UpdateWaveformOf(base + i)
      {
        if i < |outs| - 1 {
          assert init[i] == outs[i];
        }
      }
    }
  }

  /** `this.waveforms.filter((v) => v.dataType === type)` */
  function OfType(ws: seq<WaveformInstance>, t: WaveformType): (r: seq<WaveformInstance>)
    ensures |r| <= |ws|
    ensures forall x :: x in r ==> x in ws && x.dataType == Some(t)
    decreases |ws|
  {
    if ws == [] then []
    else if ws[0].dataType == Some(t) then [ws[0]] + OfType(ws[1..], t)
    else OfType(ws[1..], t)
  }

  /** The instance of an output carries the output's declared `dataType`. */
  lemma {:induction false} NewInstanceType(streamName: string, stream: WaveformStream, ch: string, decl: OutputDecl)
    ensures NewInstance(streamName, stream, ch, decl).dataType == DeclaredType(decl)
  {
  }

  /** An output declared by a bare type name gets an instance without a
      `dataType`, which no filter on a type ever returns. */
  lemma {:induction false} BareOutputNeverOfType(streamName: string, stream: WaveformStream, ch: string,
                                                 t: WaveformType, ws: seq<WaveformInstance>, decl: OutputDecl)
    requires decl.TypeName?
    ensures NewInstance(streamName, stream, ch, decl).dataType == None
    ensures NewInstance(streamName, stream, ch, decl) !in OfType(ws, t)
  {
    NewInstanceType(streamName, stream, ch, decl);
  }

  /** The filter keeps every matching instance and keeps them in list
      order: filtering a list made of two parts filters each part. */
  lemma {:induction false} OfTypeConcat(a: seq<WaveformInstance>, b: seq<WaveformInstance>, t: WaveformType)
    ensures OfType(a + b, t) == OfType(a, t) + OfType(b, t)
    decreases |a|
  {
    if a == [] {
      assert a + b == b;
    } else {
      assert (a + b)[0] == a[0] && (a + b)[1..] == a[1..] + b;
      OfTypeConcat(a[1..], b, t);
    }
  }

  /** Every instance of the list whose type matches is in the result. */
  lemma {:induction false} OfTypeComplete(ws: seq<WaveformInstance>, t: WaveformType, i: nat)
    requires i < |ws| && ws[i].dataType == Some(t)
    ensures ws[i] in OfType(ws, t)
    decreases |ws|
  {
    if i > 0 {
      OfTypeComplete(ws[1..], t, i - 1);
    }
  }

  /** An unlocked instance given `data`: the waveform is replaced unless
      the instance appends and already has one, in which case the merge
      the source has yet to write leaves it as it was. */
  function Updated(instance: WaveformInstance, data: Waveform): (r: WaveformInstance)
    ensures r.waveform == (if instance.append && instance.waveform.Some? then instance.waveform else Some(data))
    ensures r.(waveform := instance.waveform) == instance
  {
    if instance.append && instance.waveform.Some? then instance else instance.(waveform := Some(data))
  }

  class Session {
    var waveforms: seq<WaveformInstance>
    var updateSequenceStarted: bool
    /** The lists handed to `renderCallback`, in order. */
    var renders: seq<seq<WaveformInstance>>

    constructor()
      ensures waveforms == [] && !updateSequenceStarted && renders == []
    {
      waveforms := [];
      updateSequenceStarted := false;
      renders := [];
    }

    /** Lines 44-70: one new instance per output of `stream`, in the order
        of its outputs, after the existing ones; each output's callback
        updates its own instance; then one render. */
    method AddStream(streamName: string, stream: WaveformStream)
      modifies this`waveforms, this`renders, stream`callbacks
      ensures |waveforms| == |old(waveforms)| + |stream.metadata.output|
      ensures waveforms[..|old(waveforms)|] == old(waveforms)
      ensures forall i :: 0 <= i < |stream.metadata.output| ==>
                waveforms[|old(waveforms)| + i]
                == NewInstance(streamName, stream, stream.metadata.output[i].0, stream.metadata.output[i].1)
      ensures stream.callbacks == Registered(old(stream.callbacks), stream.metadata.output, |old(waveforms)|)
      ensures renders == old(renders) + [waveforms]
    {
      var outs := stream.metadata.output;
      var i := 0;
      while i < |outs|
        invariant 0 <= i <= |outs|
        invariant |waveforms| == |old(waveforms)| + i
        invariant waveforms[..|old(waveforms)|] == old(waveforms)
        invariant forall j :: 0 <= j < i ==>
                    waveforms[|old(waveforms)| + j] == NewInstance(streamName, stream, outs[j].0, outs[j].1)
        invariant stream.callbacks == Registered(old(stream.callbacks), outs[..i], |old(waveforms)|)
        invariant renders == old(renders)
      {
        var (ch, decl) := outs[i];
        var instance := NewInstance(streamName, stream, ch, decl);
        waveforms := waveforms + [instance];
        assert outs[..i + 1][..i] == outs[..i];
        stream.SetCallback(ch, UpdateWaveformOf(|waveforms| - 1));
        i := i + 1;
      }
      assert outs[..i] == outs;
      renders := renders + [waveforms];
    }

    /** Lines 84-86: the instances of type `t`, in list order. */
    function GetWaveformsOfType(t: WaveformType): (r: seq<WaveformInstance>)
      reads this
      ensures forall i :: 0 <= i < |waveforms| && waveforms[i].dataType == Some(t) ==> waveforms[i] in r
      ensures forall x :: x in r ==> x in waveforms && x.dataType == Some(t)
    {
      forall i | 0 <= i < |waveforms| && waveforms[i].dataType == Some(t)
        ensures waveforms[i] in OfType(waveforms, t)
      {
        OfTypeComplete(waveforms, t, i);
      }
      OfType(waveforms, t)
    }

    /** Lines 92-116, the callback of instance `index`: a locked instance
        is left alone and nothing is rendered; otherwise the instance is
        updated and, as the first update of a sequence, rendered once. */
    method UpdateWaveform(index: nat, data: Waveform)
      requires index < |waveforms|
      modifies this`waveforms, this`updateSequenceStarted, this`renders
      ensures old(waveforms[index].locked) ==>
                waveforms == old(waveforms) && updateSequenceStarted == old(updateSequenceStarted) && renders == old(renders)
      ensures !old(waveforms[index].locked) ==> waveforms == old(waveforms)[index := Updated(old(waveforms[index]), data)]
      ensures !old(waveforms[index].locked) && !old(updateSequenceStarted) ==>
                !updateSequenceStarted && renders == old(renders) + [waveforms]
      ensures !old(waveforms[index].locked) && old(updateSequenceStarted) ==>
                updateSequenceStarted && renders == old(renders)
    {
      var instance := waveforms[index];
      if instance.locked {
        return;
      }
      var firstInSequence := !updateSequenceStarted;
      updateSequenceStarted := true;
      if instance.append && instance.waveform.Some? {
      } else {
        waveforms := waveforms[index := instance.(waveform := Some(data))];
      }
      if firstInSequence {
        updateSequenceStarted := false;
        renders := renders + [waveforms];
      }
    }
  }
}
