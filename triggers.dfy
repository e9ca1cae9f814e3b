/** Trigger conditions and the per-condition flag table of `waitTrigger`
    (src/streams/decoder/FrameDecoder.ts:6-57, 190-235). */
module Triggers {
  import opened Wrappers
  import opened Util
  import opened Waveforms

  datatype Level = High | Low

  /** `"high" | "low" | "rising" | "falling" | "edge"` */
  datatype BinaryKind = IsHigh | IsLow | Rising | Falling | Edge

  /** `AnalogTrigger | BinaryTrigger`: a threshold with a level, or a binary
      level/edge name. */
  datatype Trigger = OnAnalog(thresh: real, level: Level) | OnBinary(kind: BinaryKind)

  /** `checkTrigger`: does the sample `value`, preceded by `prevValue`,
      satisfy `trigger` on a waveform of type `dataType`? A trigger of the
      other family matches no case of the source's switch and gives false. */
  function CheckTrigger(dataType: WaveformType, trigger: Trigger, prevValue: real, value: real): (r: bool)
    ensures r ==> ((dataType == Analog) <==> trigger.OnAnalog?)
    ensures r && (trigger == OnBinary(Rising) || trigger == OnBinary(Falling) || trigger == OnBinary(Edge))
            ==> prevValue != value
  {
    if dataType == Analog then
      match trigger
      case OnAnalog(thresh, High) => value >= thresh
      case OnAnalog(thresh, Low) => value <= thresh
      case OnBinary(_) => false
    else
      match trigger
      case OnBinary(IsHigh) => value == 1.0
      case OnBinary(IsLow) => value == 0.0
      case OnBinary(Rising) => prevValue == 0.0 && value == 1.0
      case OnBinary(Falling) => prevValue == 1.0 && value == 0.0
      case OnBinary(Edge) => prevValue != value
      case OnAnalog(_, _) => false
  }

  /** The analog rules: "high" holds exactly at or above the threshold, "low"
      exactly at or below it, so at the threshold both hold, and a sample
      always satisfies one of the two. */
  lemma {:induction false} AnalogLevels(thresh: real, prev: real, value: real)
    ensures CheckTrigger(Analog, OnAnalog(thresh, High), prev, value) <==> value >= thresh
    ensures CheckTrigger(Analog, OnAnalog(thresh, Low), prev, value) <==> value <= thresh
    ensures CheckTrigger(Analog, OnAnalog(thresh, High), prev, value)
         || CheckTrigger(Analog, OnAnalog(thresh, Low), prev, value)
  {
  }

  /** Binary levels look only at the current sample; on bits, exactly one of
      "high" and "low" holds. */
  lemma {:induction false} BinaryLevelsIgnorePrevious(dataType: WaveformType, prev1: real, prev2: real, value: Bit)
    requires dataType != Analog
    ensures CheckTrigger(dataType, OnBinary(IsHigh), prev1, value as real)
         == CheckTrigger(dataType, OnBinary(IsHigh), prev2, value as real)
    ensures CheckTrigger(dataType, OnBinary(IsLow), prev1, value as real)
         == CheckTrigger(dataType, OnBinary(IsLow), prev2, value as real)
    ensures CheckTrigger(dataType, OnBinary(IsHigh), prev1, value as real)
         != CheckTrigger(dataType, OnBinary(IsLow), prev1, value as real)
  {
  }

  /** Edges on bits: "rising" is exactly 0 then 1, "falling" exactly 1 then 0,
      and "edge" holds exactly when one of the two does. */
  lemma {:induction false} BinaryEdges(dataType: WaveformType, prev: Bit, value: Bit)
    requires dataType != Analog
    ensures CheckTrigger(dataType, OnBinary(Rising), prev as real, value as real) <==> prev == 0 && value == 1
    ensures CheckTrigger(dataType, OnBinary(Falling), prev as real, value as real) <==> prev == 1 && value == 0
    ensures CheckTrigger(dataType, OnBinary(Edge), prev as real, value as real)
        <==> (CheckTrigger(dataType, OnBinary(Rising), prev as real, value as real)
              || CheckTrigger(dataType, OnBinary(Falling), prev as real, value as real))
  {
  }

  /** A trigger of the wrong family for the waveform never fires. */
  lemma {:induction false} MismatchedTriggerNeverFires(dataType: WaveformType, t: Trigger, prev: real, value: real)
    requires (dataType == Analog) != t.OnAnalog?
    ensures !CheckTrigger(dataType, t, prev, value)
  {
  }

  /** `TriggerSet`: condition name -> (channel -> trigger), in literal order. */
  type TriggerSet = Entries<Entries<Trigger>>

  /** `TriggerSetState`: condition name -> (channel -> has it fired). */
  type TriggerState = Entries<Entries<bool>>

  /** Object literals never repeat a key, at either level. */
  predicate WellFormedSet(ts: TriggerSet) {
    DistinctKeys(ts) && forall i :: 0 <= i < |ts| ==> DistinctKeys(ts[i].1)
  }

  /** A flag table with one flag per (condition, channel) of `ts`, in the same order. */
  predicate SameShape(ts: TriggerSet, tracker: TriggerState) {
    |tracker| == |ts|
    && forall i :: 0 <= i < |ts| ==> tracker[i].0 == ts[i].0 && Keys(tracker[i].1) == Keys(ts[i].1)
  }

  /** `Object.values(triggerSet).some((chTriggers) => ch in chTriggers)` */
  predicate Named(ts: TriggerSet, ch: string) {
    exists i :: 0 <= i < |ts| && HasKey(ts[i].1, ch)
  }

  /** The flag table a fresh `waitTrigger` starts from: every flag false. */
  function FreshTracker(ts: TriggerSet): (tracker: TriggerState)
    ensures SameShape(ts, tracker)
    ensures forall i, j :: 0 <= i < |tracker| && 0 <= j < |tracker[i].1| ==> !tracker[i].1[j].1
  {
    var tracker := ObjectMap(ts, (c: string, chTriggers: Entries<Trigger>) =>
      ObjectMap(chTriggers, (ch: string, t: Trigger) => false));
    forall i | 0 <= i < |ts|
      ensures tracker[i] == (ts[i].0, ObjectMap(ts[i].1, (ch: string, t: Trigger) => false))
    {
      ObjectMapAt(ts, (c: string, chTriggers: Entries<Trigger>) =>
        ObjectMap(chTriggers, (ch: string, t: Trigger) => false), i);
    }
    forall i, j | 0 <= i < |tracker| && 0 <= j < |tracker[i].1|
      ensures !tracker[i].1[j].1
    {
      ObjectMapAt(ts[i].1, (ch: string, t: Trigger) => false, j);
    }
    tracker
  }

  /** Every flag of the condition is true: `Object.values(flags).every((v) => v)`. */
  predicate AllTrue(flags: Entries<bool>) {
    forall j :: 0 <= j < |flags| ==> flags[j].1
  }

  /** One flag list after a sample of `ch`: the flag of `ch`, if the condition
      names it, is overwritten with the check of this sample against the
      condition's trigger for `ch`. Keys are distinct, so updating the entry
      whose key is `ch` is updating `flags[ch]`. */
  function UpdateCondition(triggers: Entries<Trigger>, flags: Entries<bool>, ch: string,
                           dataType: WaveformType, prev: real, value: real): (r: Entries<bool>)
    requires Keys(flags) == Keys(triggers)
    ensures Keys(r) == Keys(flags)
    ensures forall j :: 0 <= j < |flags| ==>
      r[j].1 == if flags[j].0 == ch then CheckTrigger(dataType, triggers[j].1, prev, value) else flags[j].1
  {
    if flags == [] then []
    else
      assert Keys(flags)[0] == Keys(triggers)[0];
      assert Keys(flags[1..]) == Keys(flags)[1..] && Keys(triggers[1..]) == Keys(triggers)[1..];
      var v := if flags[0].0 == ch then CheckTrigger(dataType, triggers[0].1, prev, value) else flags[0].1;
      [(flags[0].0, v)] + UpdateCondition(triggers[1..], flags[1..], ch, dataType, prev, value)
  }

  /** The flag table after one popped sample of channel `ch`
      (src/streams/decoder/FrameDecoder.ts:220-229): for every condition that
      names `ch`, that flag is OVERWRITTEN with this sample's check (not or-ed
      in); every other flag keeps its value. */
  function UpdateTracker(ts: TriggerSet, tracker: TriggerState, ch: string,
                         dataType: WaveformType, prev: real, value: real): (r: TriggerState)
    requires SameShape(ts, tracker)
    ensures SameShape(ts, r)
    ensures forall i, j :: 0 <= i < |r| && 0 <= j < |r[i].1| ==>
      r[i].1[j].1 == if tracker[i].1[j].0 == ch then CheckTrigger(dataType, ts[i].1[j].1, prev, value)
                     else tracker[i].1[j].1
    decreases |ts|
  {
    if ts == [] then []
    else
      var first := (tracker[0].0, UpdateCondition(ts[0].1, tracker[0].1, ch, dataType, prev, value));
      var rest := UpdateTracker(ts[1..], tracker[1..], ch, dataType, prev, value);
      [first] + rest
  }

  /** The first condition of `ts`, in its order, whose flags are all true
      (src/streams/decoder/FrameDecoder.ts:231-235). */
  function FirstSatisfied(ts: TriggerSet, tracker: TriggerState): (r: Option<string>)
    requires SameShape(ts, tracker)
    ensures r.None? <==> forall i :: 0 <= i < |ts| ==> !AllTrue(tracker[i].1)
    ensures r.Some? ==> exists i :: 0 <= i < |ts| && ts[i].0 == r.value && AllTrue(tracker[i].1)
                          && forall l :: 0 <= l < i ==> !AllTrue(tracker[l].1)
  {
    if ts == [] then None
    else if AllTrue(tracker[0].1) then Some(ts[0].0)
    else
      var r := FirstSatisfied(ts[1..], tracker[1..]);
      if r.Some? then
        var i :| 0 <= i < |ts[1..]| && ts[1..][i].0 == r.value && AllTrue(tracker[1..][i].1)
                 && forall l :: 0 <= l < i ==> !AllTrue(tracker[1..][l].1);
        assert ts[i + 1].0 == r.value && AllTrue(tracker[i + 1].1);
        assert forall l :: 0 <= l < i + 1 ==> !AllTrue(tracker[l].1) by {
          forall l | 0 <= l < i + 1 ensures !AllTrue(tracker[l].1) {
            if l > 0 { assert tracker[l] == tracker[1..][l - 1]; }
          }
        }
        r
      else
        assert forall i :: 0 <= i < |ts| ==> !AllTrue(tracker[i].1) by {
          forall i | 0 <= i < |ts| ensures !AllTrue(tracker[i].1) {
            if i > 0 { assert tracker[i] == tracker[1..][i - 1]; }
          }
        }
        r
  }

  /** Condition `i` of the updated table is condition `i`'s flag list
      updated on its own. */
  lemma {:induction false} UpdateTrackerAt(ts: TriggerSet, tracker: TriggerState, ch: string,
                                           dataType: WaveformType, prev: real, value: real, i: nat)
    requires SameShape(ts, tracker) && i < |ts|
    ensures |UpdateTracker(ts, tracker, ch, dataType, prev, value)| == |ts|
    ensures UpdateTracker(ts, tracker, ch, dataType, prev, value)[i]
         == (tracker[i].0, UpdateCondition(ts[i].1, tracker[i].1, ch, dataType, prev, value))
    decreases |ts|
  {
    if i > 0 {
      UpdateTrackerAt(ts[1..], tracker[1..], ch, dataType, prev, value, i - 1);
    }
  }

  /** A condition that does not name `ch` keeps its flags. */
  lemma {:induction false} UpdateConditionAbsent(triggers: Entries<Trigger>, flags: Entries<bool>, ch: string,
                              dataType: WaveformType, prev: real, value: real)
    requires Keys(flags) == Keys(triggers) && !HasKey(flags, ch)
    ensures UpdateCondition(triggers, flags, ch, dataType, prev, value) == flags
  {
    var r := UpdateCondition(triggers, flags, ch, dataType, prev, value);
    assert |Keys(r)| == |Keys(flags)|;
    forall j | 0 <= j < |flags| ensures r[j] == flags[j] {
      assert Keys(r)[j] == Keys(flags)[j];
    }
  }
}
