/** The merge scheduler of `waitTrigger` (src/streams/decoder/FrameDecoder.ts:139-243)
    as pure functions: the queue, its ordering, the skip of samples at the
    cursor, and the scan that pops samples until a condition is satisfied or
    a channel runs out of data. */
module Scheduler {
  import opened Wrappers
  import opened Util
  import opened Waveforms
  import opened Triggers

  /** `QueueItem`: a channel, its waveform and the index of its next
      unprocessed sample. The source keeps `sampleTime` and adds `1/rate`;
      with exact arithmetic that is `index / rate`, and the `Math.round`
      of line 200 gives back `index`. */
  datatype QueueItem = QueueItem(ch: string, wave: Waveform, index: nat)

  predicate ValidItem(item: QueueItem) {
    SampledInput(item.wave)
  }

  predicate AllValid(q: seq<QueueItem>) {
    forall i :: 0 <= i < |q| ==> ValidItem(q[i])
  }

  function Rate(item: QueueItem): real
    requires ValidItem(item)
  {
    item.wave.sampleRate
  }

  /** `sampleTime` of the item. */
  function Time(item: QueueItem): real
    requires ValidItem(item)
  {
    item.index as real / Rate(item)
  }

  /** The queue's comparator (lines 154-160): earlier sample time first, and at
      equal times the higher sample rate first. */
  predicate Before(a: QueueItem, b: QueueItem)
    requires ValidItem(a) && ValidItem(b)
  {
    if Time(a) != Time(b) then Time(a) < Time(b) else Rate(a) > Rate(b)
  }

  /** The index of the item `poll()` returns: an item nothing in the queue
      comes before. The comparator leaves ties between equal times and equal
      rates open; this model takes the earliest such item in queue order. */
  function PickMin(q: seq<QueueItem>): (k: nat)
    requires |q| > 0 && AllValid(q)
    ensures k < |q|
    ensures forall j :: 0 <= j < |q| ==> !Before(q[j], q[k])
    ensures forall j :: 0 <= j < k ==> Before(q[k], q[j])
  {
    if |q| == 1 then 0
    else
      var k := PickMin(q[1..]);
      if Before(q[k + 1], q[0]) then k + 1 else 0
  }

  /** The queue after `poll()` took out item `k`. */
  function Remove(q: seq<QueueItem>, k: nat): (r: seq<QueueItem>)
    requires k < |q|
    ensures |r| == |q| - 1
  {
    q[..k] + q[k + 1..]
  }

  /** `item.sampleTime += 1 / item.waveform.sampleRate` */
  function Bump(item: QueueItem): (r: QueueItem)
    requires ValidItem(item)
    ensures ValidItem(r) && r.ch == item.ch && r.wave == item.wave
    ensures Time(r) == Time(item) + 1.0 / Rate(item)
    ensures Time(r) > Time(item) && Before(item, r)
  {
    var r := item.(index := item.index + 1);
    assert Time(r) == Time(item) + 1.0 / Rate(item);
    assert 1.0 / Rate(item) > 0.0;
    r
  }

  /** "Not before" is transitive: the comparator is a strict weak order. */
  lemma {:induction false} NotBeforeTransitive(x: QueueItem, y: QueueItem, z: QueueItem)
    requires ValidItem(x) && ValidItem(y) && ValidItem(z)
    requires !Before(x, y) && !Before(y, z)
    ensures !Before(x, z)
  {
  }

  /** The queue built at lines 168-177: in input order, one item per channel
      named by some condition, at the first sample at or after `t`,
      `Math.ceil(t * rate)`. */
  function InitialQueue(input: Entries<Waveform>, ts: TriggerSet, t: real): (q: seq<QueueItem>)
    requires t >= 0.0
    requires forall i :: 0 <= i < |input| ==> SampledInput(input[i].1)
    ensures AllValid(q)
    ensures forall i :: 0 <= i < |q| ==> Time(q[i]) >= t
  {
    if input == [] then []
    else
      var rest := InitialQueue(input[1..], ts, t);
      if Named(ts, input[0].0) then
        var w := input[0].1;
        assert SampledInput(w);
        [QueueItem(input[0].0, w, CeilIndex(t, w.sampleRate))] + rest
      else
        rest
  }

  /** Exactly the channels named by some condition are queued, each with its
      own waveform. */
  lemma {:induction false} InitialQueueChannels(input: Entries<Waveform>, ts: TriggerSet, t: real)
    requires t >= 0.0
    requires forall i :: 0 <= i < |input| ==> SampledInput(input[i].1)
    ensures forall j :: 0 <= j < |InitialQueue(input, ts, t)| ==> Named(ts, InitialQueue(input, ts, t)[j].ch)
    ensures forall i :: 0 <= i < |input| && Named(ts, input[i].0) ==>
              exists j :: 0 <= j < |InitialQueue(input, ts, t)| && InitialQueue(input, ts, t)[j].ch == input[i].0
                          && InitialQueue(input, ts, t)[j].wave == input[i].1
  {
    if input != [] {
      InitialQueueChannels(input[1..], ts, t);
      var q := InitialQueue(input, ts, t);
      var rest := InitialQueue(input[1..], ts, t);
      var off := if Named(ts, input[0].0) then 1 else 0;
      assert q == (if off == 1 then [q[0]] else []) + rest;
      forall i | 0 <= i < |input| && Named(ts, input[i].0)
        ensures exists j :: 0 <= j < |q| && q[j].ch == input[i].0 && q[j].wave == input[i].1
      {
        if i == 0 {
          assert q[0].ch == input[0].0 && q[0].wave == input[0].1;
        } else {
          assert input[1..][i - 1] == input[i];
          var j :| 0 <= j < |rest| && rest[j].ch == input[i].0 && rest[j].wave == input[i].1;
          assert q[j + off] == rest[j];
        }
      }
    }
  }

  /** `Math.ceil(t * rate)`, whose sample time is the first at or after `t`. */
  function CeilIndex(t: real, rate: real): (c: nat)
    requires t >= 0.0 && rate > 0.0
    ensures c as real >= t * rate > c as real - 1.0
    ensures c as real / rate >= t
  {
    var f := (t * rate).Floor;
    var c := if f as real == t * rate then f else f + 1;
    assert c as real >= t * rate;
    DivideBound(c as real, rate, t);
    c
  }

  /** `x >= t * rate` gives `x / rate >= t` for a positive rate. */
  lemma {:induction false} DivideBound(x: real, rate: real, t: real)
    requires rate > 0.0 && x >= t * rate
    ensures x / rate >= t
  {
    assert x / rate - t == (x - t * rate) / rate;
  }

  /** Number of queued items whose sample time is `t`. */
  function CountAt(q: seq<QueueItem>, t: real): nat
    requires AllValid(q)
  {
    if q == [] then 0 else (if Time(q[0]) == t then 1 else 0) + CountAt(q[1..], t)
  }

  lemma {:induction false} CountAtConcat(a: seq<QueueItem>, b: seq<QueueItem>, t: real)
    requires AllValid(a) && AllValid(b)
    ensures AllValid(a + b) && CountAt(a + b, t) == CountAt(a, t) + CountAt(b, t)
  {
    if a != [] {
      assert (a + b)[1..] == a[1..] + b;
      CountAtConcat(a[1..], b, t);
    } else {
      assert a + b == b;
    }
  }

  /** Moving an item at time `t` one sample on leaves one item fewer at `t`. */
  lemma {:induction false} SkipStep(q: seq<QueueItem>, k: nat, t: real)
    requires AllValid(q) && k < |q| && Time(q[k]) == t
    ensures AllValid(Remove(q, k) + [Bump(q[k])])
    ensures CountAt(Remove(q, k) + [Bump(q[k])], t) == CountAt(q, t) - 1
  {
    assert q == q[..k] + [q[k]] + q[k + 1..];
    CountAtConcat(q[..k], [q[k]], t);
    CountAtConcat(q[..k] + [q[k]], q[k + 1..], t);
    CountAtConcat(q[..k], q[k + 1..], t);
    CountAtConcat(Remove(q, k), [Bump(q[k])], t);
    assert Time(Bump(q[k])) != t;
  }

  /** The skip loop of lines 182-188 for a fresh call: while the earliest
      queued sample lies at the cursor `t`, move that item one sample on. */
  function SkipAt(q: seq<QueueItem>, t: real): (r: seq<QueueItem>)
    requires AllValid(q)
    ensures AllValid(r) && |r| == |q|
    decreases CountAt(q, t)
  {
    if q == [] then q
    else
      var k := PickMin(q);
      if Time(q[k]) != t then q
      else
        SkipStep(q, k, t);
        SkipAt(Remove(q, k) + [Bump(q[k])], t)
  }

  /** An item with a sample to read at its index. */
  predicate HasData(item: QueueItem) {
    item.index < item.wave.Length()
  }

  /** Samples left to process in the queue (items already past the end count 0). */
  function Remaining(q: seq<QueueItem>): nat
  {
    if q == [] then 0
    else (if q[0].index < q[0].wave.Length() then q[0].wave.Length() - q[0].index else 0) + Remaining(q[1..])
  }

  lemma {:induction false} RemainingConcat(a: seq<QueueItem>, b: seq<QueueItem>)
    ensures Remaining(a + b) == Remaining(a) + Remaining(b)
  {
    if a != [] {
      assert (a + b)[1..] == a[1..] + b;
      RemainingConcat(a[1..], b);
    } else {
      assert a + b == b;
    }
  }

  /** Moving a queued item with data left one sample on leaves one sample less to process. */
  lemma {:induction false} RemainingAfterPop(q: seq<QueueItem>, k: nat)
    requires k < |q| && AllValid(q) && q[k].index < q[k].wave.Length()
    ensures Remaining(Remove(q, k) + [Bump(q[k])]) == Remaining(q) - 1
  {
    assert q == q[..k] + [q[k]] + q[k + 1..];
    RemainingConcat(q[..k], [q[k]]);
    RemainingConcat(q[..k] + [q[k]], q[k + 1..]);
    RemainingConcat(q[..k], q[k + 1..]);
    RemainingConcat(Remove(q, k), [Bump(q[k])]);
  }

  /** The two samples `checkTrigger` is given for an item with data: the one
      before it (the sample itself at index 0) and the sample itself. */
  function PrevValue(item: QueueItem): real
    requires ValidItem(item) && item.index < item.wave.Length()
  {
    item.wave.At(if item.index > 0 then item.index - 1 else 0)
  }

  /** The first sample of a buffer is its own `prevValue`, so no rising,
      falling or edge trigger holds there. */
  lemma {:induction false} NoEdgeAtFirstSample(item: QueueItem, dataType: WaveformType, kind: BinaryKind)
    requires ValidItem(item) && item.index == 0 && 0 < item.wave.Length()
    requires kind == Rising || kind == Falling || kind == Edge
    ensures !CheckTrigger(dataType, OnBinary(kind), PrevValue(item), item.wave.At(item.index))
  {
  }

  function Apply(ts: TriggerSet, tracker: TriggerState, item: QueueItem): (r: TriggerState)
    requires SameShape(ts, tracker) && ValidItem(item) && item.index < item.wave.Length()
    ensures SameShape(ts, r)
  {
    UpdateTracker(ts, tracker, item.ch, item.wave.DataType(), PrevValue(item), item.wave.At(item.index))
  }

  /** How a scan ends: `poll()` on an empty queue throws; a channel without a
      sample at its next time suspends, keeping the flag table; a satisfied
      condition resolves. `time` is where the cursor is left. */
  datatype ScanResult =
    | Crashed
    | Suspend(time: real, tracker: TriggerState)
    | Fire(cond: string, time: real, tracker: TriggerState)

  /** The `while (true)` loop of lines 197-240. */
  function Scan(ts: TriggerSet, q: seq<QueueItem>, tracker: TriggerState): (r: ScanResult)
    requires SameShape(ts, tracker) && AllValid(q)
    ensures !r.Crashed? ==> SameShape(ts, r.tracker)
    decreases Remaining(q)
  {
    if q == [] then Crashed
    else
      var k := PickMin(q);
      var first := q[k];
      if !HasData(first) then Suspend(Time(first), tracker)
      else
        var tracker' := Apply(ts, tracker, first);
        match FirstSatisfied(ts, tracker')
        case Some(c) => Fire(c, Time(first), tracker')
        case None =>
          RemainingAfterPop(q, k);
          Scan(ts, Remove(q, k) + [Bump(first)], tracker')
  }

  /** The items the scan pops, in order, including the one without data that
      suspends it. */
  ghost function Trace(ts: TriggerSet, q: seq<QueueItem>, tracker: TriggerState): (items: seq<QueueItem>)
    requires SameShape(ts, tracker) && AllValid(q)
    ensures AllValid(items)
    decreases Remaining(q)
  {
    if q == [] then []
    else
      var k := PickMin(q);
      var first := q[k];
      if !HasData(first) then [first]
      else
        var tracker' := Apply(ts, tracker, first);
        if FirstSatisfied(ts, tracker').Some? then [first]
        else
          RemainingAfterPop(q, k);
          [first] + Trace(ts, Remove(q, k) + [Bump(first)], tracker')
  }
}

module SchedulerFacts {
  import opened Wrappers
  import opened Util
  import opened Waveforms
  import opened Triggers
  import opened Scheduler

  /** The queue after one turn of the scan loop that neither suspends nor
      fires: every item but the re-added one was already queued, and one
      sample less is left. */
  lemma {:induction false} PopQueue(q: seq<QueueItem>)
    requires AllValid(q) && q != [] && HasData(q[PickMin(q)])
    ensures AllValid(Remove(q, PickMin(q)) + [Bump(q[PickMin(q)])])
    ensures Remaining(Remove(q, PickMin(q)) + [Bump(q[PickMin(q)])]) < Remaining(q)
    ensures |Remove(q, PickMin(q)) + [Bump(q[PickMin(q)])]| == |q|
    ensures forall i :: 0 <= i < |q| - 1 ==>
      (Remove(q, PickMin(q)) + [Bump(q[PickMin(q)])])[i] == q[if i < PickMin(q) then i else i + 1]
    ensures (Remove(q, PickMin(q)) + [Bump(q[PickMin(q)])])[|q| - 1] == Bump(q[PickMin(q)])
  {
    RemainingAfterPop(q, PickMin(q));
  }

  /** Building the queue channel by channel: one more input channel adds
      at most its own item, at the end. */
  lemma {:induction false} InitialQueueSnoc(input: Entries<Waveform>, ch: string, w: Waveform, ts: TriggerSet, t: real)
    requires t >= 0.0 && SampledInput(w)
    requires forall i :: 0 <= i < |input| ==> SampledInput(input[i].1)
    ensures forall i :: 0 <= i < |input + [(ch, w)]| ==> SampledInput((input + [(ch, w)])[i].1)
    ensures InitialQueue(input + [(ch, w)], ts, t)
         == InitialQueue(input, ts, t) + (if Named(ts, ch) then [QueueItem(ch, w, CeilIndex(t, w.sampleRate))] else [])
  {
    if input != [] {
      assert (input + [(ch, w)])[1..] == input[1..] + [(ch, w)];
      InitialQueueSnoc(input[1..], ch, w, ts, t);
    } else {
      assert [(ch, w)][1..] == [];
    }
  }

  /** The scan and its trace after such a turn continue from the updated
      queue and flag table. */
  lemma {:induction false} ScanStep(ts: TriggerSet, q: seq<QueueItem>, tracker: TriggerState)
    requires SameShape(ts, tracker) && AllValid(q) && q != []
    requires HasData(q[PickMin(q)])
    requires FirstSatisfied(ts, Apply(ts, tracker, q[PickMin(q)])).None?
    ensures Scan(ts, q, tracker)
         == Scan(ts, Remove(q, PickMin(q)) + [Bump(q[PickMin(q)])], Apply(ts, tracker, q[PickMin(q)]))
  {
  }

  lemma {:induction false} TraceStep(ts: TriggerSet, q: seq<QueueItem>, tracker: TriggerState)
    requires SameShape(ts, tracker) && AllValid(q) && q != []
    requires HasData(q[PickMin(q)])
    requires FirstSatisfied(ts, Apply(ts, tracker, q[PickMin(q)])).None?
    ensures Trace(ts, q, tracker)
         == [q[PickMin(q)]] + Trace(ts, Remove(q, PickMin(q)) + [Bump(q[PickMin(q)])], Apply(ts, tracker, q[PickMin(q)]))
  {
  }

  /** The scan crashes exactly when the queue it starts from is empty: the
      loop never shrinks the queue. */
  lemma {:induction false} ScanCrashesIffEmpty(ts: TriggerSet, q: seq<QueueItem>, tracker: TriggerState)
    requires SameShape(ts, tracker) && AllValid(q)
    ensures Scan(ts, q, tracker).Crashed? <==> q == []
    decreases Remaining(q)
  {
    if q != [] {
      var k := PickMin(q);
      var first := q[k];
      if HasData(first) && FirstSatisfied(ts, Apply(ts, tracker, first)).None? {
        PopQueue(q);
        ScanStep(ts, q, tracker);
        ScanCrashesIffEmpty(ts, Remove(q, k) + [Bump(first)], Apply(ts, tracker, first));
      }
    }
  }

  /** After the skip loop, when nothing was queued before `t`, every queued
      sample lies strictly after `t`. */
  lemma {:induction false} SkipAtAfter(q: seq<QueueItem>, t: real)
    requires AllValid(q)
    requires forall i :: 0 <= i < |q| ==> Time(q[i]) >= t
    ensures forall i :: 0 <= i < |SkipAt(q, t)| ==> Time(SkipAt(q, t)[i]) > t
    decreases CountAt(q, t)
  {
    if q != [] {
      var k := PickMin(q);
      if Time(q[k]) != t {
        forall i | 0 <= i < |q| ensures Time(q[i]) > t {
          assert !Before(q[i], q[k]);
        }
      } else {
        var q' := Remove(q, k) + [Bump(q[k])];
        SkipStep(q, k, t);
        assert forall i :: 0 <= i < |q'| - 1 ==> q'[i] in q;
        assert SkipAt(q, t) == SkipAt(q', t);
        SkipAtAfter(q', t);
      }
    }
  }

  /** The cursor a scan leaves is never earlier than a bound every queued
      sample respects (strictly, if every queued sample is strictly later). */
  lemma {:induction false} ScanNotEarlier(ts: TriggerSet, q: seq<QueueItem>, tracker: TriggerState, lo: real, strict: bool)
    requires SameShape(ts, tracker) && AllValid(q)
    requires forall i :: 0 <= i < |q| ==> if strict then Time(q[i]) > lo else Time(q[i]) >= lo
    ensures !Scan(ts, q, tracker).Crashed? ==>
      if strict then Scan(ts, q, tracker).time > lo else Scan(ts, q, tracker).time >= lo
    decreases Remaining(q)
  {
    if q != [] {
      var k := PickMin(q);
      var first := q[k];
      if HasData(first) && FirstSatisfied(ts, Apply(ts, tracker, first)).None? {
        PoppedTimes(q, lo, strict);
        ScanStep(ts, q, tracker);
        ScanNotEarlier(ts, Remove(q, k) + [Bump(first)], Apply(ts, tracker, first), lo, strict);
      }
    }
  }

  /** Popping and re-adding keeps a bound on the queued times. */
  lemma {:induction false} PoppedTimes(q: seq<QueueItem>, lo: real, strict: bool)
    requires AllValid(q) && q != [] && HasData(q[PickMin(q)])
    requires forall i :: 0 <= i < |q| ==> if strict then Time(q[i]) > lo else Time(q[i]) >= lo
    ensures AllValid(Remove(q, PickMin(q)) + [Bump(q[PickMin(q)])])
    ensures Remaining(Remove(q, PickMin(q)) + [Bump(q[PickMin(q)])]) < Remaining(q)
    ensures var q' := Remove(q, PickMin(q)) + [Bump(q[PickMin(q)])];
      forall i :: 0 <= i < |q'| ==> if strict then Time(q'[i]) > lo else Time(q'[i]) >= lo
  {
    var k := PickMin(q);
    PopQueue(q);
    var q' := Remove(q, k) + [Bump(q[k])];
    forall i | 0 <= i < |q'| ensures if strict then Time(q'[i]) > lo else Time(q'[i]) >= lo {
      if i < |q'| - 1 {
        var j := if i < k then i else i + 1;
        assert q'[i] == q[j];
      }
    }
  }

  /** Not earlier in the queue's order. */
  predicate NotBefore(x: QueueItem, b: QueueItem)
    requires ValidItem(x) && ValidItem(b)
  {
    !Before(x, b)
  }

  /** After a pop, nothing left queued comes before the popped item. */
  lemma {:induction false} PoppedIsLeast(q: seq<QueueItem>)
    requires AllValid(q) && q != [] && HasData(q[PickMin(q)])
    ensures var k := PickMin(q); var q' := Remove(q, k) + [Bump(q[k])];
      AllValid(q') && forall i :: 0 <= i < |q'| ==> NotBefore(q'[i], q[k])
  {
    var k := PickMin(q);
    PopQueue(q);
    var q' := Remove(q, k) + [Bump(q[k])];
    forall i | 0 <= i < |q'| ensures NotBefore(q'[i], q[k]) {
      if i < |q'| - 1 {
        var j := if i < k then i else i + 1;
        assert q'[i] == q[j];
      }
    }
  }

  /** When nothing queued comes before `b`, nothing the scan pops does either. */
  lemma {:induction false} TraceBounded(ts: TriggerSet, q: seq<QueueItem>, tracker: TriggerState, b: QueueItem)
    requires SameShape(ts, tracker) && AllValid(q) && ValidItem(b)
    requires forall i :: 0 <= i < |q| ==> NotBefore(q[i], b)
    ensures forall i :: 0 <= i < |Trace(ts, q, tracker)| ==> NotBefore(Trace(ts, q, tracker)[i], b)
    decreases Remaining(q)
  {
    if q != [] {
      var k := PickMin(q);
      var first := q[k];
      if HasData(first) && FirstSatisfied(ts, Apply(ts, tracker, first)).None? {
        var q' := Remove(q, k) + [Bump(first)];
        PoppedNotBefore(q, b);
        TraceBounded(ts, q', Apply(ts, tracker, first), b);
        TraceBoundedStep(ts, q, tracker, b);
      } else {
        assert Trace(ts, q, tracker) == [first];
      }
    }
  }

  /** Popping and re-adding keeps every queued item not before `b`. */
  lemma {:induction false} PoppedNotBefore(q: seq<QueueItem>, b: QueueItem)
    requires AllValid(q) && q != [] && HasData(q[PickMin(q)]) && ValidItem(b)
    requires forall i :: 0 <= i < |q| ==> NotBefore(q[i], b)
    ensures AllValid(Remove(q, PickMin(q)) + [Bump(q[PickMin(q)])])
    ensures Remaining(Remove(q, PickMin(q)) + [Bump(q[PickMin(q)])]) < Remaining(q)
    ensures var q' := Remove(q, PickMin(q)) + [Bump(q[PickMin(q)])];
      forall i :: 0 <= i < |q'| ==> NotBefore(q'[i], b)
  {
    var k := PickMin(q);
    PopQueue(q);
    var q' := Remove(q, k) + [Bump(q[k])];
    forall i | 0 <= i < |q'| ensures NotBefore(q'[i], b) {
      if i < |q'| - 1 {
        var j := if i < k then i else i + 1;
        assert q'[i] == q[j];
      } else {
        NotBeforeTransitive(Bump(q[k]), q[k], b);
      }
    }
  }

  /** The step of `TraceBounded` after a turn that goes on. */
  lemma {:induction false} TraceBoundedStep(ts: TriggerSet, q: seq<QueueItem>, tracker: TriggerState, b: QueueItem)
    requires SameShape(ts, tracker) && AllValid(q) && ValidItem(b) && q != []
    requires HasData(q[PickMin(q)]) && FirstSatisfied(ts, Apply(ts, tracker, q[PickMin(q)])).None?
    requires NotBefore(q[PickMin(q)], b)
    requires AllValid(Remove(q, PickMin(q)) + [Bump(q[PickMin(q)])])
    requires var tr := Trace(ts, Remove(q, PickMin(q)) + [Bump(q[PickMin(q)])], Apply(ts, tracker, q[PickMin(q)]));
      forall i :: 0 <= i < |tr| ==> NotBefore(tr[i], b)
    ensures forall i :: 0 <= i < |Trace(ts, q, tracker)| ==> NotBefore(Trace(ts, q, tracker)[i], b)
  {
    TraceStep(ts, q, tracker);
    var first := q[PickMin(q)];
    var tr := Trace(ts, Remove(q, PickMin(q)) + [Bump(first)], Apply(ts, tracker, first));
    forall i | 0 <= i < |[first] + tr| ensures NotBefore(([first] + tr)[i], b) {
      if i > 0 {
        assert ([first] + tr)[i] == tr[i - 1];
      }
    }
  }

  /** Items in merge order: none comes before one listed earlier. */
  predicate InMergeOrder(items: seq<QueueItem>)
    requires AllValid(items)
  {
    forall i, j :: 0 <= i < j < |items| ==> NotBefore(items[j], items[i])
  }

  /** An item that nothing after it comes before keeps merge order at the front. */
  lemma {:induction false} ConsInMergeOrder(first: QueueItem, rest: seq<QueueItem>)
    requires ValidItem(first) && AllValid(rest) && InMergeOrder(rest)
    requires forall i :: 0 <= i < |rest| ==> NotBefore(rest[i], first)
    ensures AllValid([first] + rest) && InMergeOrder([first] + rest)
  {
    var items := [first] + rest;
    forall i, j | 0 <= i < j < |items| ensures NotBefore(items[j], items[i]) {
      assert items[j] == rest[j - 1];
      if i > 0 {
        assert items[i] == rest[i - 1];
      }
    }
  }

  /** Merge order: the scan pops samples by non-decreasing time, and at equal
      times by non-increasing sample rate. */
  lemma {:induction false} TraceInMergeOrder(ts: TriggerSet, q: seq<QueueItem>, tracker: TriggerState)
    requires SameShape(ts, tracker) && AllValid(q)
    ensures InMergeOrder(Trace(ts, q, tracker))
    decreases Remaining(q)
  {
    if q != [] {
      var k := PickMin(q);
      var first := q[k];
      if HasData(first) && FirstSatisfied(ts, Apply(ts, tracker, first)).None? {
        var tracker' := Apply(ts, tracker, first);
        var q' := Remove(q, k) + [Bump(first)];
        PopQueue(q);
        PoppedIsLeast(q);
        TraceStep(ts, q, tracker);
        TraceBounded(ts, q', tracker', first);
        TraceInMergeOrder(ts, q', tracker');
        ConsInMergeOrder(first, Trace(ts, q', tracker'));
      }
    }
  }

  /** The flag table after applying popped samples in order. */
  function Replay(ts: TriggerSet, tracker: TriggerState, items: seq<QueueItem>): (r: TriggerState)
    requires SameShape(ts, tracker) && AllValid(items)
    requires forall i :: 0 <= i < |items| ==> HasData(items[i])
    ensures SameShape(ts, r)
    decreases |items|
  {
    if items == [] then tracker
    else
      assert HasData(items[0]) && ValidItem(items[0]);
      Replay(ts, Apply(ts, tracker, items[0]), items[1..])
  }

  /** The last popped sample of channel `ch`, if any. */
  function LastOf(items: seq<QueueItem>, ch: string): (r: Option<QueueItem>)
    ensures r.Some? ==> r.value in items && r.value.ch == ch
    ensures r.None? ==> forall i :: 0 <= i < |items| ==> items[i].ch != ch
  {
    if items == [] then None
    else
      var r := LastOf(items[1..], ch);
      if r.Some? then r else if items[0].ch == ch then Some(items[0]) else None
  }

  /** `checkTrigger` for a popped sample. */
  predicate Fires(item: QueueItem, trigger: Trigger)
    requires ValidItem(item) && HasData(item)
  {
    CheckTrigger(item.wave.DataType(), trigger, PrevValue(item), item.wave.At(item.index))
  }

  /** Flags are overwritten, not accumulated: after a run of samples, the flag
      of (condition i, channel j) is the check of the LAST sample of that
      channel, whatever earlier samples gave, or its starting value if the
      channel had no sample. */
  lemma {:induction false} ReplayFlag(ts: TriggerSet, tracker: TriggerState, items: seq<QueueItem>, i: nat, j: nat)
    requires SameShape(ts, tracker) && AllValid(items)
    requires forall n :: 0 <= n < |items| ==> HasData(items[n])
    requires i < |ts| && j < |ts[i].1|
    ensures |Replay(ts, tracker, items)[i].1| == |ts[i].1| == |tracker[i].1|
    ensures Replay(ts, tracker, items)[i].1[j].1 ==
      match LastOf(items, ts[i].1[j].0)
      case Some(it) => Fires(it, ts[i].1[j].1)
      case None => tracker[i].1[j].1
    decreases |items|
  {
    assert |Keys(tracker[i].1)| == |Keys(ts[i].1)|;
    assert Keys(Replay(ts, tracker, items)[i].1) == Keys(ts[i].1);
    if items != [] {
      var t1 := Apply(ts, tracker, items[0]);
      ReplayFlag(ts, t1, items[1..], i, j);
      assert Keys(tracker[i].1)[j] == Keys(ts[i].1)[j];
    }
  }

  /** Replaying a first sample and then the rest. */
  lemma {:induction false} ReplayCons(ts: TriggerSet, tracker: TriggerState, first: QueueItem, rest: seq<QueueItem>)
    requires SameShape(ts, tracker) && ValidItem(first) && HasData(first) && AllValid(rest)
    requires forall i :: 0 <= i < |rest| ==> HasData(rest[i])
    ensures AllValid([first] + rest) && forall i :: 0 <= i < |[first] + rest| ==> HasData(([first] + rest)[i])
    ensures Replay(ts, tracker, [first] + rest) == Replay(ts, Apply(ts, tracker, first), rest)
  {
    assert ([first] + rest)[1..] == rest;
  }

  /** Every one of the first `n` items has a sample to read. */
  predicate DataUpTo(items: seq<QueueItem>, n: nat)
    requires n <= |items|
  {
    forall m :: 0 <= m < n ==> HasData(items[m])
  }

  /** Putting an item with data in front keeps a data prefix and the last item. */
  lemma {:induction false} DataCons(first: QueueItem, rest: seq<QueueItem>, n: nat)
    requires HasData(first) && n <= |rest| && DataUpTo(rest, n)
    ensures DataUpTo([first] + rest, n + 1)
    ensures |rest| > 0 ==> ([first] + rest)[|rest|] == rest[|rest| - 1]
  {
    var tr := [first] + rest;
    forall m | 0 <= m < n + 1 ensures HasData(tr[m]) {
      if m > 0 { assert tr[m] == rest[m - 1]; }
    }
  }

  /** Replaying all but the last of `[first] + rest`. */
  lemma {:induction false} ReplayConsPrefix(ts: TriggerSet, tracker: TriggerState, first: QueueItem, rest: seq<QueueItem>, n: nat)
    requires SameShape(ts, tracker) && ValidItem(first) && HasData(first) && AllValid(rest)
    requires n <= |rest| && DataUpTo(rest, n)
    ensures AllValid(([first] + rest)[..n + 1]) && AllValid(rest[..n])
    ensures DataUpTo(([first] + rest)[..n + 1], n + 1) && DataUpTo(rest[..n], n)
    ensures Replay(ts, tracker, ([first] + rest)[..n + 1]) == Replay(ts, Apply(ts, tracker, first), rest[..n])
  {
    assert ([first] + rest)[..n + 1] == [first] + rest[..n];
    assert DataUpTo(rest[..n], n);
    ReplayCons(ts, tracker, first, rest[..n]);
  }

  /** Where a scan result sits on the samples the scan popped: it ends at
      the last one, every one before it had data, and so does the last one
      when the scan fires. */
  predicate EndsAt(r: ScanResult, tr: seq<QueueItem>)
    requires AllValid(tr)
  {
    match r
    case Crashed => tr == []
    case Suspend(t, _) =>
      |tr| > 0 && !HasData(tr[|tr| - 1]) && t == Time(tr[|tr| - 1]) && DataUpTo(tr, |tr| - 1)
    case Fire(_, t, _) =>
      |tr| > 0 && t == Time(tr[|tr| - 1]) && DataUpTo(tr, |tr|)
  }

  /** A sample with data popped before the others keeps `EndsAt`. */
  lemma {:induction false} EndsAtCons(r: ScanResult, first: QueueItem, rest: seq<QueueItem>)
    requires ValidItem(first) && HasData(first) && AllValid(rest) && !r.Crashed? && EndsAt(r, rest)
    ensures AllValid([first] + rest) && EndsAt(r, [first] + rest)
  {
    match r
    case Suspend(_, _) => DataCons(first, rest, |rest| - 1);
    case Fire(_, _, _) => DataCons(first, rest, |rest|);
  }

  /** The scan ends at the last sample it pops, and crashes only on an
      empty queue. */
  lemma {:induction false} ScanEndsAtTrace(ts: TriggerSet, q: seq<QueueItem>, tracker: TriggerState)
    requires SameShape(ts, tracker) && AllValid(q)
    ensures Scan(ts, q, tracker).Crashed? ==> q == []
    ensures EndsAt(Scan(ts, q, tracker), Trace(ts, q, tracker))
    decreases Remaining(q)
  {
    if q != [] {
      var k := PickMin(q);
      var first := q[k];
      if HasData(first) && FirstSatisfied(ts, Apply(ts, tracker, first)).None? {
        var tracker' := Apply(ts, tracker, first);
        var q' := Remove(q, k) + [Bump(first)];
        PopQueue(q);
        ScanStep(ts, q, tracker);
        TraceStep(ts, q, tracker);
        ScanEndsAtTrace(ts, q', tracker');
        EndsAtCons(Scan(ts, q', tracker'), first, Trace(ts, q', tracker'));
      } else {
        assert Trace(ts, q, tracker) == [first];
      }
    }
  }

  /** The flag table a scan result carries is the replay, from `tracker`,
      of every sample the scan read (all but a suspending last one); when
      it fires, the condition it names is the first satisfied one of that
      table. */
  predicate FlagsAt(ts: TriggerSet, tracker: TriggerState, r: ScanResult, tr: seq<QueueItem>)
    requires SameShape(ts, tracker) && AllValid(tr)
  {
    match r
    case Crashed => true
    case Suspend(_, flags) =>
      |tr| > 0 && DataUpTo(tr, |tr| - 1) && flags == Replay(ts, tracker, tr[..|tr| - 1])
    case Fire(c, _, flags) =>
      DataUpTo(tr, |tr|) && flags == Replay(ts, tracker, tr) && FirstSatisfied(ts, flags) == Some(c)
  }

  /** A sample with data read before the others keeps `FlagsAt`, replayed
      from the table before it. */
  lemma {:induction false} FlagsAtCons(ts: TriggerSet, tracker: TriggerState, r: ScanResult, first: QueueItem, rest: seq<QueueItem>)
    requires SameShape(ts, tracker) && ValidItem(first) && HasData(first) && AllValid(rest) && !r.Crashed?
    requires FlagsAt(ts, Apply(ts, tracker, first), r, rest)
    ensures AllValid([first] + rest) && FlagsAt(ts, tracker, r, [first] + rest)
  {
    if r.Suspend? {
      SuspendFlagsCons(ts, tracker, r, first, rest);
    } else {
      FireFlagsCons(ts, tracker, r, first, rest);
    }
  }

  /** `FlagsAtCons` for a scan that suspends. */
  lemma {:induction false} SuspendFlagsCons(ts: TriggerSet, tracker: TriggerState, r: ScanResult, first: QueueItem, rest: seq<QueueItem>)
    requires SameShape(ts, tracker) && ValidItem(first) && HasData(first) && AllValid(rest) && r.Suspend?
    requires FlagsAt(ts, Apply(ts, tracker, first), r, rest)
    ensures AllValid([first] + rest) && FlagsAt(ts, tracker, r, [first] + rest)
  {
    ValidCons(first, rest);
    DataCons(first, rest, |rest| - 1);
    var read := rest[..|rest| - 1];
    ReadPrefix(rest, read);
    assert ([first] + rest)[..|rest|] == [first] + read;
    ReplayCons(ts, tracker, first, read);
  }

  /** A valid item in front of valid items. */
  lemma {:induction false} ValidCons(first: QueueItem, rest: seq<QueueItem>)
    requires ValidItem(first) && AllValid(rest)
    ensures AllValid([first] + rest)
  {
    var tr := [first] + rest;
    forall m | 0 <= m < |tr| ensures ValidItem(tr[m]) {
      if m > 0 { assert tr[m] == rest[m - 1]; }
    }
  }

  /** All but the last of a run whose data reaches that far. */
  lemma {:induction false} ReadPrefix(rest: seq<QueueItem>, read: seq<QueueItem>)
    requires |rest| > 0 && AllValid(rest) && DataUpTo(rest, |rest| - 1) && read == rest[..|rest| - 1]
    ensures AllValid(read) && forall i :: 0 <= i < |read| ==> HasData(read[i])
  {
    forall i | 0 <= i < |read| ensures ValidItem(read[i]) && HasData(read[i]) {
      assert read[i] == rest[i];
    }
  }

  /** `FlagsAtCons` for a scan that fires. */
  lemma {:induction false} FireFlagsCons(ts: TriggerSet, tracker: TriggerState, r: ScanResult, first: QueueItem, rest: seq<QueueItem>)
    requires SameShape(ts, tracker) && ValidItem(first) && HasData(first) && AllValid(rest) && r.Fire?
    requires FlagsAt(ts, Apply(ts, tracker, first), r, rest)
    ensures AllValid([first] + rest) && FlagsAt(ts, tracker, r, [first] + rest)
  {
    DataCons(first, rest, |rest|);
    ReplayCons(ts, tracker, first, rest);
  }

  /** The flags the scan ends with are the replay of what it read. */
  lemma {:induction false} ScanFlagsAreReplay(ts: TriggerSet, q: seq<QueueItem>, tracker: TriggerState)
    requires SameShape(ts, tracker) && AllValid(q)
    ensures FlagsAt(ts, tracker, Scan(ts, q, tracker), Trace(ts, q, tracker))
    decreases Remaining(q)
  {
    if q != [] {
      var k := PickMin(q);
      var first := q[k];
      if HasData(first) && FirstSatisfied(ts, Apply(ts, tracker, first)).None? {
        var tracker' := Apply(ts, tracker, first);
        var q' := Remove(q, k) + [Bump(first)];
        PopQueue(q);
        ScanStep(ts, q, tracker);
        TraceStep(ts, q, tracker);
        ScanEndsAtTrace(ts, q', tracker');
        ScanFlagsAreReplay(ts, q', tracker');
        FlagsAtCons(ts, tracker, Scan(ts, q', tracker'), first, Trace(ts, q', tracker'));
      } else if HasData(first) {
        assert Trace(ts, q, tracker) == [first];
        ReplayConsPrefix(ts, tracker, first, [], 0);
      } else {
        assert Trace(ts, q, tracker) == [first];
        assert Trace(ts, q, tracker)[..0] == [];
      }
    }
  }

  /** The flag table after each sample the scan reads, in order. */
  ghost function Tables(ts: TriggerSet, q: seq<QueueItem>, tracker: TriggerState): (tables: seq<TriggerState>)
    requires SameShape(ts, tracker) && AllValid(q)
    ensures forall n :: 0 <= n < |tables| ==> SameShape(ts, tables[n])
    decreases Remaining(q)
  {
    if q == [] then []
    else
      var k := PickMin(q);
      var first := q[k];
      if !HasData(first) then []
      else
        var tracker' := Apply(ts, tracker, first);
        if FirstSatisfied(ts, tracker').Some? then [tracker']
        else
          RemainingAfterPop(q, k);
          [tracker'] + Tables(ts, Remove(q, k) + [Bump(first)], tracker')
  }

  lemma {:induction false} TablesStep(ts: TriggerSet, q: seq<QueueItem>, tracker: TriggerState)
    requires SameShape(ts, tracker) && AllValid(q) && q != []
    requires HasData(q[PickMin(q)])
    requires FirstSatisfied(ts, Apply(ts, tracker, q[PickMin(q)])).None?
    ensures Tables(ts, q, tracker)
         == [Apply(ts, tracker, q[PickMin(q)])] + Tables(ts, Remove(q, PickMin(q)) + [Bump(q[PickMin(q)])], Apply(ts, tracker, q[PickMin(q)]))
  {
  }

  /** The scan resolves at the first sample after which some condition is
      satisfied: after every earlier sample it read, none was. */
  lemma {:induction false} ScanStopsAtFirstSatisfied(ts: TriggerSet, q: seq<QueueItem>, tracker: TriggerState)
    requires SameShape(ts, tracker) && AllValid(q)
    ensures var tables := Tables(ts, q, tracker);
      forall n :: 0 <= n < |tables| - 1 ==> FirstSatisfied(ts, tables[n]).None?
    decreases Remaining(q)
  {
    if q != [] {
      var k := PickMin(q);
      var first := q[k];
      if HasData(first) && FirstSatisfied(ts, Apply(ts, tracker, first)).None? {
        var tracker' := Apply(ts, tracker, first);
        PopQueue(q);
        TablesStep(ts, q, tracker);
        var q' := Remove(q, k) + [Bump(first)];
        ScanStopsAtFirstSatisfied(ts, q', tracker');
        var tables' := Tables(ts, q', tracker');
        var tables := [tracker'] + tables';
        forall n | 0 <= n < |tables| - 1 ensures FirstSatisfied(ts, tables[n]).None? {
          if n > 0 { assert tables[n] == tables'[n - 1]; }
        }
      }
    }
  }

  /** The scan reads a sample for each table it builds. */
  lemma {:induction false} TablesWithinTrace(ts: TriggerSet, q: seq<QueueItem>, tracker: TriggerState)
    requires SameShape(ts, tracker) && AllValid(q)
    ensures |Tables(ts, q, tracker)| <= |Trace(ts, q, tracker)|
    ensures DataUpTo(Trace(ts, q, tracker), |Tables(ts, q, tracker)|)
    decreases Remaining(q)
  {
    if q != [] {
      var k := PickMin(q);
      var first := q[k];
      if HasData(first) && FirstSatisfied(ts, Apply(ts, tracker, first)).None? {
        var tracker' := Apply(ts, tracker, first);
        PopQueue(q);
        TablesStep(ts, q, tracker);
        TraceStep(ts, q, tracker);
        var q' := Remove(q, k) + [Bump(first)];
        TablesWithinTrace(ts, q', tracker');
        DataCons(first, Trace(ts, q', tracker'), |Tables(ts, q', tracker')|);
      } else {
        assert Trace(ts, q, tracker) == [first];
      }
    }
  }

  /** Each of those tables is the replay of the samples read so far. */
  lemma {:induction false} TableIsReplay(ts: TriggerSet, q: seq<QueueItem>, tracker: TriggerState, n: nat)
    requires SameShape(ts, tracker) && AllValid(q)
    requires n < |Tables(ts, q, tracker)|
    ensures ReplayedUpTo(ts, tracker, Trace(ts, q, tracker), n, Tables(ts, q, tracker)[n])
    decreases Remaining(q)
  {
    TablesWithinTrace(ts, q, tracker);
    var k := PickMin(q);
    var first := q[k];
    var tracker' := Apply(ts, tracker, first);
    if FirstSatisfied(ts, tracker').None? {
      PopQueue(q);
      var q' := Remove(q, k) + [Bump(first)];
      if n > 0 {
        TableIsReplay(ts, q', tracker', n - 1);
      }
      TableIsReplayStep(ts, q, tracker, n, first, q', tracker');
    } else {
      assert Trace(ts, q, tracker) == [first] + [];
      assert Tables(ts, q, tracker) == [tracker'];
      TableConsAt(ts, tracker, first, [], 0, tracker');
    }
  }

  /** `table` is the replay, from `tracker`, of the first `n + 1` samples
      of the run `tr`, each of which has data. */
  ghost predicate ReplayedUpTo(ts: TriggerSet, tracker: TriggerState, tr: seq<QueueItem>, n: nat, table: TriggerState)
    requires SameShape(ts, tracker) && AllValid(tr)
  {
    n < |tr| && DataUpTo(tr[..n + 1], n + 1) && table == Replay(ts, tracker, tr[..n + 1])
  }

  /** The inductive step of `TableIsReplay`, after a turn that neither
      suspends nor fires. */
  lemma {:induction false} TableIsReplayStep(ts: TriggerSet, q: seq<QueueItem>, tracker: TriggerState, n: nat,
                          first: QueueItem, q': seq<QueueItem>, tracker': TriggerState)
    requires SameShape(ts, tracker) && AllValid(q) && q != []
    requires first == q[PickMin(q)] && HasData(first)
    requires tracker' == Apply(ts, tracker, first) && FirstSatisfied(ts, tracker').None?
    requires q' == Remove(q, PickMin(q)) + [Bump(first)] && AllValid(q')
    requires n < |Tables(ts, q, tracker)|
    requires n > 0 ==>
      n - 1 < |Tables(ts, q', tracker')|
      && ReplayedUpTo(ts, tracker', Trace(ts, q', tracker'), n - 1, Tables(ts, q', tracker')[n - 1])
    ensures ReplayedUpTo(ts, tracker, Trace(ts, q, tracker), n, Tables(ts, q, tracker)[n])
  {
    TablesStep(ts, q, tracker);
    TraceStep(ts, q, tracker);
    var tr' := Trace(ts, q', tracker');
    assert Trace(ts, q, tracker) == [first] + tr';
    if n == 0 {
      assert Tables(ts, q, tracker)[0] == tracker';
      TableConsAt(ts, tracker, first, tr', 0, tracker');
    } else {
      var table := Tables(ts, q', tracker')[n - 1];
      assert Tables(ts, q, tracker)[n] == table;
      TableConsAt(ts, tracker, first, tr', n, table);
    }
  }

  /** One table of the run with a sample put in front. */
  lemma {:induction false} TableConsAt(ts: TriggerSet, tracker: TriggerState, first: QueueItem, tr: seq<QueueItem>, n: nat,
                    table: TriggerState)
    requires SameShape(ts, tracker) && ValidItem(first) && HasData(first) && AllValid(tr)
    requires n == 0 ==> table == Apply(ts, tracker, first)
    requires n > 0 ==> ReplayedUpTo(ts, Apply(ts, tracker, first), tr, n - 1, table)
    ensures AllValid([first] + tr) && ReplayedUpTo(ts, tracker, [first] + tr, n, table)
  {
    ValidCons(first, tr);
    if n == 0 {
      ReplayConsPrefix(ts, tracker, first, tr, 0);
      ReplayEmpty(ts, Apply(ts, tracker, first), tr);
    } else {
      assert DataUpTo(tr, n) by {
        forall m | 0 <= m < n ensures HasData(tr[m]) {
          assert tr[..n][m] == tr[m];
        }
      }
      ReplayConsPrefix(ts, tracker, first, tr, n);
    }
  }

  lemma {:induction false} ReplayEmpty(ts: TriggerSet, tracker: TriggerState, tr: seq<QueueItem>)
    requires SameShape(ts, tracker) && AllValid(tr)
    ensures AllValid(tr[..0]) && Replay(ts, tracker, tr[..0]) == tracker
  {
    assert tr[..0] == [];
  }

  /** Every channel of condition `i` has a last sample in `tr`, and that
      sample satisfies the channel's trigger. */
  predicate Witnessed(ts: TriggerSet, i: nat, tr: seq<QueueItem>)
    requires i < |ts|
  {
    forall j :: 0 <= j < |ts[i].1| ==>
      var last := LastOf(tr, ts[i].1[j].0);
      last.Some? && ValidItem(last.value) && HasData(last.value) && Fires(last.value, ts[i].1[j].1)
  }

  /** What a fired condition means for a call with no flag table passed
      in: the fired condition is one of the set, and for every channel it
      names, that channel's LAST sample read by the scan satisfies the
      channel's trigger. A channel never read keeps its initial false flag,
      so it cannot be part of a fired condition. */
  lemma {:induction false} FiredConditionWitnessed(ts: TriggerSet, q: seq<QueueItem>)
    requires AllValid(q)
    ensures var r := Scan(ts, q, FreshTracker(ts));
      var tr := Trace(ts, q, FreshTracker(ts));
      r.Fire? ==> DataUpTo(tr, |tr|) && exists i :: 0 <= i < |ts| && ts[i].0 == r.cond && Witnessed(ts, i, tr)
  {
    var tracker := FreshTracker(ts);
    var tr := Trace(ts, q, tracker);
    ScanFlagsAreReplay(ts, q, tracker);
    match Scan(ts, q, tracker)
    case Fire(c, _, flags) =>
      var i :| 0 <= i < |ts| && ts[i].0 == c && AllTrue(flags[i].1);
      forall j | 0 <= j < |ts[i].1|
        ensures var last := LastOf(tr, ts[i].1[j].0);
          last.Some? && ValidItem(last.value) && HasData(last.value) && Fires(last.value, ts[i].1[j].1)
      {
        assert |flags[i].1| == |ts[i].1| by { assert |Keys(flags[i].1)| == |Keys(ts[i].1)|; }
        FlagWitness(ts, tracker, tr, i, j);
      }
      assert Witnessed(ts, i, tr);
    case Crashed =>
    case Suspend(_, _) =>
  }

  /** A flag that is true after a replay from an all-false table was set by
      the last sample of its channel. */
  lemma {:induction false} FlagWitness(ts: TriggerSet, tracker: TriggerState, tr: seq<QueueItem>, i: nat, j: nat)
    requires SameShape(ts, tracker) && AllValid(tr) && DataUpTo(tr, |tr|)
    requires forall a, b :: 0 <= a < |tracker| && 0 <= b < |tracker[a].1| ==> !tracker[a].1[b].1
    requires i < |ts| && j < |ts[i].1|
    requires |Replay(ts, tracker, tr)[i].1| == |ts[i].1| && Replay(ts, tracker, tr)[i].1[j].1
    ensures var last := LastOf(tr, ts[i].1[j].0);
      last.Some? && ValidItem(last.value) && HasData(last.value) && Fires(last.value, ts[i].1[j].1)
  {
    ReplayFlag(ts, tracker, tr, i, j);
    var last := LastOf(tr, ts[i].1[j].0);
    if last.Some? {
      var n :| 0 <= n < |tr| && tr[n] == last.value;
      assert HasData(tr[n]);
    }
  }
}
