/**
 * The schedule map: date strings to day plans. A day plan is the ordered
 * dictionary a JSON object becomes in Python: slot labels to task texts, in
 * insertion order.
 */
module Schedule {
  import opened Strings

  datatype Slot = Slot(period: string, task: string)

  type DayPlan = seq<Slot>

  type ScheduleMap = map<string, DayPlan>

  /** The text every slot holds when a day is created. */
  const NoTask: string := "無任務"

  /** What complete_task puts in front of a slot's text. */
  const DoneMarker: string := "✅ "

  /** The eight two-hour slots of a day, in ascending hour. */
  const StandardLabels: seq<string> :=
    ["8-10時", "10-12時", "12-14時", "14-16時", "16-18時", "18-20時", "20-22時", "22-24時"]

  function Labels(p: DayPlan): (ls: seq<string>)
    ensures |ls| == |p| && forall k :: 0 <= k < |p| ==> ls[k] == p[k].period
  {
    seq(|p|, k requires 0 <= k < |p| => p[k].period)
  }

  /** A day plan is a dictionary: no label occurs twice. */
  predicate DistinctLabels(p: DayPlan)
  {
    forall i, j :: 0 <= i < j < |p| ==> p[i].period != p[j].period
  }

  /** Every day plan of the map is a dictionary. */
  predicate WellFormedMap(m: ScheduleMap)
  {
    forall d :: d in m ==> DistinctLabels(m[d])
  }

  /** Every day of the map has exactly the eight standard slots, in order. */
  predicate StandardDays(m: ScheduleMap)
  {
    forall d :: d in m ==> Labels(m[d]) == StandardLabels
  }

  /** `f"{i}-{i+2}時"`. */
  function SlotLabel(hour: nat): string
  {
    NatToString(hour) + "-" + NatToString(hour + 2) + "時"
  }

  /** The slots `range(hour, 24, 2)` produces, each holding NoTask. */
  function SlotsFrom(hour: nat): DayPlan
    decreases 24 - hour
  {
    if hour >= 24 then [] else [Slot(SlotLabel(hour), NoTask)] + SlotsFrom(hour + 2)
  }

  /** The characters of a label whose two hours both have two digits. */
  lemma SlotLabelShape(hour: nat)
    requires 10 <= hour && hour + 2 < 100
    ensures SlotLabel(hour) == [DigitChar(hour / 10), DigitChar(hour % 10), '-',
                                DigitChar((hour + 2) / 10), DigitChar((hour + 2) % 10), '時']
  {
    assert NatToString(hour) == NatToString(hour / 10) + [DigitChar(hour % 10)];
    assert NatToString(hour + 2) == NatToString((hour + 2) / 10) + [DigitChar((hour + 2) % 10)];
  }

  lemma LabelsCons(s: Slot, p: DayPlan)
    ensures Labels([s] + p) == [s.period] + Labels(p)
  {
    assert forall k :: 1 <= k < |p| + 1 ==> ([s] + p)[k] == p[k - 1];
  }

  /** Every slot SlotsFrom produces holds NoTask. */
  lemma {:induction false} SlotsFromTasks(hour: nat)
    ensures forall k :: 0 <= k < |SlotsFrom(hour)| ==> SlotsFrom(hour)[k].task == NoTask
    decreases 24 - hour
  {
    if hour < 24 {
      SlotsFromTasks(hour + 2);
      var rest := SlotsFrom(hour + 2);
      assert forall k :: 1 <= k < |SlotsFrom(hour)| ==> SlotsFrom(hour)[k] == rest[k - 1];
    }
  }

  /** One step of `range(8, 24, 2)`: the slot of `hour` carries the i-th standard label. */
  lemma SlotsFromStep(hour: nat, i: nat)
    requires hour < 24 && i < 8
    requires SlotLabel(hour) == StandardLabels[i]
    requires Labels(SlotsFrom(hour + 2)) == StandardLabels[i + 1..]
    ensures Labels(SlotsFrom(hour)) == StandardLabels[i..]
  {
    LabelsCons(Slot(SlotLabel(hour), NoTask), SlotsFrom(hour + 2));
    assert StandardLabels[i..] == [StandardLabels[i]] + StandardLabels[i + 1..];
  }

  /*
   * The labels `f"{i}-{i+2}時"` takes for i = 22, 20, ..., 10, one slot at a
   * time from the last slot backwards.
   */

  lemma LabelsFrom22()
    ensures Labels(SlotsFrom(22)) == StandardLabels[7..]
  {
    assert Labels(SlotsFrom(24)) == StandardLabels[8..];
    assert SlotLabel(22) == StandardLabels[7] by { SlotLabelShape(22); }
    SlotsFromStep(22, 7);
  }

  lemma LabelsFrom20()
    ensures Labels(SlotsFrom(20)) == StandardLabels[6..]
  {
    LabelsFrom22();
    assert SlotLabel(20) == StandardLabels[6] by { SlotLabelShape(20); }
    SlotsFromStep(20, 6);
  }

  lemma LabelsFrom18()
    ensures Labels(SlotsFrom(18)) == StandardLabels[5..]
  {
    LabelsFrom20();
    assert SlotLabel(18) == StandardLabels[5] by { SlotLabelShape(18); }
    SlotsFromStep(18, 5);
  }

  lemma LabelsFrom16()
    ensures Labels(SlotsFrom(16)) == StandardLabels[4..]
  {
    LabelsFrom18();
    assert SlotLabel(16) == StandardLabels[4] by { SlotLabelShape(16); }
    SlotsFromStep(16, 4);
  }

  lemma LabelsFrom14()
    ensures Labels(SlotsFrom(14)) == StandardLabels[3..]
  {
    LabelsFrom16();
    assert SlotLabel(14) == StandardLabels[3] by { SlotLabelShape(14); }
    SlotsFromStep(14, 3);
  }

  lemma LabelsFrom12()
    ensures Labels(SlotsFrom(12)) == StandardLabels[2..]
  {
    LabelsFrom14();
    assert SlotLabel(12) == StandardLabels[2] by { SlotLabelShape(12); }
    SlotsFromStep(12, 2);
  }

  lemma LabelsFrom10()
    ensures Labels(SlotsFrom(10)) == StandardLabels[1..]
  {
    LabelsFrom12();
    assert SlotLabel(10) == StandardLabels[1] by { SlotLabelShape(10); }
    SlotsFromStep(10, 1);
  }

  lemma FirstLabel()
    ensures SlotLabel(8) == StandardLabels[0]
  {
    assert NatToString(10) == NatToString(1) + [DigitChar(0)];
  }

  /** The day a new plan starts from has the eight standard labels, in order. */
  lemma SlotsFromLabels()
    ensures Labels(SlotsFrom(8)) == StandardLabels
  {
    assert Labels(SlotsFrom(8)) == StandardLabels[0..] by {
      LabelsFrom10();
      FirstLabel();
      SlotsFromStep(8, 0);
    }
    assert StandardLabels[0..] == StandardLabels;
  }

  /** The eight standard labels are pairwise different. */
  lemma StandardLabelsDistinct()
    ensures forall i, j :: 0 <= i < j < |StandardLabels| ==> StandardLabels[i] != StandardLabels[j]
  {
    forall i, j | 0 <= i < j < |StandardLabels|
      ensures StandardLabels[i] != StandardLabels[j]
    {
      if i == 0 {
        assert StandardLabels[i][0] == '8' != StandardLabels[j][0];
      } else {
        assert StandardLabels[i][1] != StandardLabels[j][1] || StandardLabels[i][0] != StandardLabels[j][0];
      }
    }
  }

  /** `{f"{i}-{i+2}時": "無任務" for i in range(8, 24, 2)}`. */
  function NewDayPlan(): (p: DayPlan)
    ensures Labels(p) == StandardLabels
    ensures forall k :: 0 <= k < |p| ==> p[k].task == NoTask
    ensures DistinctLabels(p)
  {
    var p := SlotsFrom(8);
    SlotsFromLabels();
    SlotsFromTasks(8);
    StandardLabelsDistinct();
    p
  }

  /** `data[date][period]`: the text of the slot labelled `period`. */
  function Lookup(p: DayPlan, period: string): (r: string)
    requires period in Labels(p)
    ensures exists k :: 0 <= k < |p| && p[k].period == period && p[k].task == r
    ensures DistinctLabels(p) ==> forall k :: 0 <= k < |p| && p[k].period == period ==> p[k].task == r
  {
    if p[0].period == period then p[0].task
    else
      assert forall k :: 0 <= k < |p| - 1 ==> p[1..][k] == p[k + 1];
      Lookup(p[1..], period)
  }

  /** A new day reads `無任務` at every one of its labels. */
  lemma NewDayReadsNoTask(period: string)
    requires period in StandardLabels
    ensures period in Labels(NewDayPlan())
    ensures Lookup(NewDayPlan(), period) == NoTask
  {
  }

  /**
   * `data[date][period] = task` on a label the plan already has: the slot keeps
   * its place and every other slot is untouched.
   */
  function SetTask(p: DayPlan, period: string, task: string): (q: DayPlan)
    ensures Labels(q) == Labels(p)
    ensures forall k :: 0 <= k < |p| ==> q[k].task == (if p[k].period == period then task else p[k].task)
  {
    var q := seq(|p|, k requires 0 <= k < |p| => if p[k].period == period then Slot(period, task) else p[k]);
    assert forall k :: 0 <= k < |q| ==> Labels(q)[k] == Labels(p)[k];
    q
  }

  /** After SetTask, looking up `period` gives the new text and every other label its old one. */
  lemma {:induction false} LookupSetTask(p: DayPlan, period: string, task: string, l: string)
    requires l in Labels(p)
    ensures l in Labels(SetTask(p, period, task))
    ensures Lookup(SetTask(p, period, task), l) == if l == period then task else Lookup(p, l)
  {
    var q := SetTask(p, period, task);
    if p[0].period != l {
      assert Labels(p[1..]) == Labels(p)[1..];
      assert q[1..] == SetTask(p[1..], period, task);
      LookupSetTask(p[1..], period, task, l);
    }
  }

  /** `f"✅ {data[date][period]}"` written back into the slot. */
  function CompleteSlot(p: DayPlan, period: string): (q: DayPlan)
    requires period in Labels(p)
    ensures Labels(q) == Labels(p)
    ensures Lookup(q, period) == DoneMarker + Lookup(p, period)
    ensures forall l :: l in Labels(p) && l != period ==> Lookup(q, l) == Lookup(p, l)
  {
    var q := SetTask(p, period, DoneMarker + Lookup(p, period));
    LookupSetTask(p, period, DoneMarker + Lookup(p, period), period);
    forall l | l in Labels(p) && l != period
      ensures Lookup(q, l) == Lookup(p, l)
    {
      LookupSetTask(p, period, DoneMarker + Lookup(p, period), l);
    }
    q
  }

  /** Two markers in front of a text. */
  lemma DoubleMarker(v: string)
    ensures DoneMarker + (DoneMarker + v) == "✅ ✅ " + v
  {
    assert DoneMarker + DoneMarker == "✅ ✅ ";
    assert DoneMarker + (DoneMarker + v) == (DoneMarker + DoneMarker) + v;
  }

  /** The marker is not deduplicated: completing a slot twice gives two markers. */
  lemma CompleteTwice(p: DayPlan, period: string)
    requires period in Labels(p)
    ensures Lookup(CompleteSlot(CompleteSlot(p, period), period), period) == "✅ ✅ " + Lookup(p, period)
    ensures CompleteSlot(CompleteSlot(p, period), period) != CompleteSlot(p, period)
  {
    var v := Lookup(p, period);
    var once := CompleteSlot(p, period);
    var twice := CompleteSlot(once, period);
    var w := Lookup(once, period);
    assert w == DoneMarker + v;
    assert Lookup(twice, period) == DoneMarker + w;
    DoubleMarker(v);
    assert |Lookup(twice, period)| == |w| + 2;
  }
}
