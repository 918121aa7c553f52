/**
 * The iGPSPORT exporter: writes a workout as a FIT workout file, that is a
 * file_id record, a workout header record and one workout_step record per
 * step of the fully unrolled workout, each record preceded by a definition of
 * its message kind, and finally the checksum. Reading such a file is not
 * supported.
 */
module IGPSport {
  import opened Wrappers
  import opened WorkoutModel
  import opened TargetResolver
  import opened StepNames
  import opened Sequencer
  import opened Fit

  // Fixed values of the file_id and workout header records.
  const Manufacturer: nat := 0x003C
  const FileTypeWorkout: nat := 4
  const Product: nat := 65534
  const SerialNumber: nat := 12345678
  const SportCycling: nat := 2
  const NoCapabilities: nat := 0
  /** The only duration type used: time, in seconds. */
  const DurationTime: nat := 0

  datatype LoadError = NotImplemented(message: string)

  /** Reading a .fit file back into a workout always fails. */
  method Load() returns (r: Result<Workout, LoadError>)
    ensures r.Failure? && r.error.NotImplemented?
  {
    r := Failure(NotImplemented("Loading .fit files for iGPSPORT is not yet implemented."));
  }

  function FileIdRecord(): Record {
    FileIdRec(Manufacturer, FileTypeWorkout, Product, SerialNumber)
  }

  function HeaderRecord(w: Workout): Record {
    WorkoutRec(SportCycling, NoCapabilities, NumValidSteps(w.segments), WorkoutName(w.name))
  }

  /**
   * The workout_step record written for one visit of the step loop, as step
   * number `index`; the intensity is the one the table gives the segment type.
   */
  function MakeStep(w: Workout, s: Slot, index: nat): WorkoutStep {
    var target := Resolve(s.entry.targets);
    WorkoutStep(
      messageIndex := index,
      durationType := DurationTime,
      durationValue := TruncateTowardZero(s.entry.duration),
      targetType := target.kind.Code(),
      targetValue := 0,
      customTargetValueLow := TruncateTowardZero(target.low),
      customTargetValueHigh := TruncateTowardZero(target.high),
      intensity := KindIntensity(s.seg.kind),
      name := StepName(s.entry.name, s.seg.description, w.name))
  }

  /** The step records of a list of visits, numbered from 0. */
  function StepRecords(w: Workout, slots: seq<Slot>): seq<Record> {
    seq(|slots|, i requires 0 <= i < |slots| => StepRec(MakeStep(w, slots[i], i)))
  }

  /** What the exporter writes for `w`: each record after its definition, then the checksum. */
  function SaveTrace(w: Workout): seq<Event> {
    Framed([FileIdRecord(), HeaderRecord(w)] + StepRecords(w, Unrolled(w.segments))) + [Finish]
  }

  /** Writing one more step extends the trace by its definition and its record. */
  lemma TraceGrows(w: Workout, header: seq<Record>, slots: seq<Slot>, s: Slot)
    ensures Framed(header + StepRecords(w, slots + [s]))
         == Framed(header + StepRecords(w, slots)) + [Def(WorkoutStepMsg), Rec(StepRec(MakeStep(w, s, |slots|)))]
  {
    var r := StepRec(MakeStep(w, s, |slots|));
    var before := StepRecords(w, slots);
    assert StepRecords(w, slots + [s]) == before + [r] by {
      assert (slots + [s])[..|slots|] == slots;
      assert (slots + [s])[|slots|] == s;
    }
    assert header + (before + [r]) == (header + before) + [r];
    FramedSnoc(header + before, r);
  }

  /**
   * Writes `w` as a FIT workout file and returns the calls made on the
   * encoder, in order: the file_id and workout header records, then the steps
   * (one method per level of the nested segment / repetition / entry loops,
   * sharing the running message index), then the checksum.
   */
  method Save(w: Workout) returns (events: seq<Event>)
    ensures events == SaveTrace(w)
    ensures DefinedBeforeRecords(events)
    ensures |StepsOf(events)| == NumValidSteps(w.segments)
    ensures forall i :: 0 <= i < |StepsOf(events)| ==> StepsOf(events)[i].messageIndex == i
  {
    events := WriteHeader(w);
    ghost var header := [FileIdRecord(), HeaderRecord(w)];
    assert header + StepRecords(w, []) == header;

    var msgIdx := 0;
    var si := 0;
    while si < |w.segments|
      invariant 0 <= si <= |w.segments|
      invariant msgIdx == |Unrolled(w.segments[..si])|
      invariant events == Framed(header + StepRecords(w, Unrolled(w.segments[..si])))
    {
      var seg := w.segments[si];
      var segIntensity := Intensity(seg.kind.Value());
      events, msgIdx := WriteSegment(events, w, seg, segIntensity, msgIdx, header, Unrolled(w.segments[..si]));
      UnrolledSnoc(w.segments, si);
      si := si + 1;
    }
    assert w.segments[..si] == w.segments;

    events := events + [Finish];

    SaveDefinesBeforeRecords(w);
    HeaderCountMatchesSteps(w);
    MessageIndicesSequential(w);
  }

  /**
   * The file_id record and the workout header record, each after its
   * definition; the header announces the number of steps and the workout name.
   */
  method WriteHeader(w: Workout) returns (events: seq<Event>)
    ensures events == Framed([FileIdRecord(), HeaderRecord(w)])
  {
    events := [];
    events := events + [Def(FileIdMsg)];
    events := events + [Rec(FileIdRec(Manufacturer, FileTypeWorkout, Product, SerialNumber))];
    events := events + [Def(WorkoutMsg)];
    events := events + [Rec(WorkoutRec(SportCycling, NoCapabilities, NumValidSteps(w.segments), WorkoutName(w.name)))];
    FramedSnoc([], FileIdRecord());
    FramedSnoc([FileIdRecord()], HeaderRecord(w));
  }

  /**
   * The repetition loop of one segment: `repeat` passes over its entries,
   * continuing the trace and the message index left by the earlier segments
   * (the visits `done`).
   */
  method WriteSegment(events0: seq<Event>, w: Workout, seg: Segment, segIntensity: nat, msgIdx0: nat,
                      ghost header: seq<Record>, ghost done: seq<Slot>)
    returns (events: seq<Event>, msgIdx: nat)
    requires segIntensity == Intensity(seg.kind.Value())
    requires msgIdx0 == |done|
    requires events0 == Framed(header + StepRecords(w, done))
    ensures msgIdx == |done + RepeatSlots(seg, seg.repeat)|
    ensures events == Framed(header + StepRecords(w, done + RepeatSlots(seg, seg.repeat)))
  {
    events, msgIdx := events0, msgIdx0;
    ghost var cur := done;
    var rep := 0;
    while rep < seg.repeat
      invariant 0 <= rep <= seg.repeat
      invariant cur == done + RepeatSlots(seg, rep)
      invariant msgIdx == |cur|
      invariant events == Framed(header + StepRecords(w, cur))
    {
      events, msgIdx := WritePass(events, w, seg, segIntensity, msgIdx, header, cur);
      RepeatSlotsGrow(done, seg, rep);
      cur := cur + EntrySlots(seg, seg.entries);
      rep := rep + 1;
    }
  }

  /**
   * One pass over a segment's entries: each entry's target is resolved, its
   * name chosen and its duration cut to whole seconds, and a workout_step
   * definition and record are written with the next message index.
   */
  method WritePass(events0: seq<Event>, w: Workout, seg: Segment, segIntensity: nat, msgIdx0: nat,
                   ghost header: seq<Record>, ghost done: seq<Slot>)
    returns (events: seq<Event>, msgIdx: nat)
    requires segIntensity == Intensity(seg.kind.Value())
    requires msgIdx0 == |done|
    requires events0 == Framed(header + StepRecords(w, done))
    ensures msgIdx == |done| + |seg.entries|
    ensures events == Framed(header + StepRecords(w, done + EntrySlots(seg, seg.entries)))
  {
    events, msgIdx := events0, msgIdx0;
    ghost var cur := done;
    var j := 0;
    while j < |seg.entries|
      invariant 0 <= j <= |seg.entries|
      invariant cur == done + EntrySlots(seg, seg.entries[..j])
      invariant msgIdx == |cur|
      invariant events == Framed(header + StepRecords(w, cur))
    {
      var entry := seg.entries[j];
      var target := Resolve(entry.targets);
      var stepName := StepName(entry.name, seg.description, w.name);
      var step := WorkoutStep(
        messageIndex := msgIdx,
        durationType := DurationTime,
        durationValue := TruncateTowardZero(entry.duration),
        targetType := target.kind.Code(),
        targetValue := 0,
        customTargetValueLow := TruncateTowardZero(target.low),
        customTargetValueHigh := TruncateTowardZero(target.high),
        intensity := segIntensity,
        name := stepName);
      events := events + [Def(WorkoutStepMsg)];
      events := events + [Rec(StepRec(step))];

      SegmentIntensity(seg.kind);
      assert step == MakeStep(w, Slot(seg, entry), |cur|);
      TraceGrows(w, header, cur, Slot(seg, entry));
      EntrySlotsSnoc(seg, j);
      cur := cur + [Slot(seg, entry)];
      msgIdx := msgIdx + 1;
      j := j + 1;
    }
    assert seg.entries[..j] == seg.entries;
  }

  lemma StepsInStepRecords(w: Workout, slots: seq<Slot>)
    ensures |StepsIn(StepRecords(w, slots))| == |slots|
    ensures forall i :: 0 <= i < |slots| ==> StepsIn(StepRecords(w, slots))[i] == MakeStep(w, slots[i], i)
  {
    StepsInAllSteps(StepRecords(w, slots));
  }

  /** The step records in the trace are exactly the unrolled visits, numbered 0, 1, ... */
  lemma SaveStepsAre(w: Workout)
    ensures |StepsOf(SaveTrace(w))| == |Unrolled(w.segments)|
    ensures forall i :: 0 <= i < |Unrolled(w.segments)| ==>
      StepsOf(SaveTrace(w))[i] == MakeStep(w, Unrolled(w.segments)[i], i)
  {
    var slots := Unrolled(w.segments);
    var header := [FileIdRecord(), HeaderRecord(w)];
    var steps := StepRecords(w, slots);
    assert StepsOf(SaveTrace(w)) == StepsIn(steps) by {
      StepsOfFinished(Framed(header + steps));
      StepsOfFramed(header + steps);
      StepsInConcat(header, steps);
      assert StepsIn(header) == [] by {
        assert header[..1] == [FileIdRecord()];
        assert [FileIdRecord()][..0] == [];
      }
    }
    StepsInStepRecords(w, slots);
  }

  lemma SaveDefinesBeforeRecords(w: Workout)
    ensures DefinedBeforeRecords(SaveTrace(w))
  {
    FramedDefinedBeforeRecords([FileIdRecord(), HeaderRecord(w)] + StepRecords(w, Unrolled(w.segments)));
  }

  /** The header's num_valid_steps equals the number of step records written. */
  lemma HeaderCountMatchesSteps(w: Workout)
    ensures HeaderRecord(w).numValidSteps == |StepsOf(SaveTrace(w))|
  {
    SaveStepsAre(w);
    UnrolledLength(w.segments);
  }

  /** Step records carry message_index 0, 1, ..., N-1 in the order written. */
  lemma MessageIndicesSequential(w: Workout)
    ensures forall i :: 0 <= i < |StepsOf(SaveTrace(w))| ==> StepsOf(SaveTrace(w))[i].messageIndex == i
  {
    SaveStepsAre(w);
  }

  /**
   * The trace is the file_id definition and record, the workout definition and
   * header record, then for each visit of the unrolled workout a workout_step
   * definition followed by that step's record, and finally the checksum.
   */
  lemma SaveLayout(w: Workout)
    ensures var t := SaveTrace(w);
      var steps := StepRecords(w, Unrolled(w.segments));
      && |t| == 2 * |Unrolled(w.segments)| + 5
      && t[..4] == [Def(FileIdMsg), Rec(FileIdRecord()), Def(WorkoutMsg), Rec(HeaderRecord(w))]
      && (forall i :: 0 <= i < |Unrolled(w.segments)| ==>
            t[4 + 2 * i] == Def(WorkoutStepMsg) && t[5 + 2 * i] == Rec(steps[i]) && steps[i].StepRec?)
      && t[|t| - 1] == Finish
  {
    var slots := Unrolled(w.segments);
    FinishedLayout(FileIdRecord(), HeaderRecord(w), StepRecords(w, slots));
  }

  /**
   * Segments are played in order, each unrolled `repeat` times with its entries
   * in order: pass `r` of segment `k` writes entry `j` as step number
   * p = NumValidSteps(segments before k) + r * |entries| + j, with the segment's
   * intensity, the entry's duration cut to whole seconds, its resolved target
   * and its fallback name.
   */
  lemma SaveStepAt(w: Workout, k: nat, r: nat, j: nat)
    requires k < |w.segments| && r < w.segments[k].repeat && j < |w.segments[k].entries|
    ensures var seg := w.segments[k];
      var steps := StepsOf(SaveTrace(w));
      var p := NumValidSteps(w.segments[..k]) + r * |seg.entries| + j;
      p < |steps| && steps[p] == MakeStep(w, Slot(seg, seg.entries[j]), p)
  {
    var seg := w.segments[k];
    var p := NumValidSteps(w.segments[..k]) + r * |seg.entries| + j;
    var slots := Unrolled(w.segments);
    assert p < |slots| && slots[p] == Slot(seg, seg.entries[j]) by {
      UnrolledAt(w.segments, k, r, j);
    }
    SaveStepsAre(w);
  }

  /** Fields every step record shares. */
  lemma StepFixedFields(w: Workout)
    ensures forall s :: s in StepsOf(SaveTrace(w)) ==> FixedFieldsHold(s)
  {
    var slots := Unrolled(w.segments);
    var steps := StepsOf(SaveTrace(w));
    SaveStepsAre(w);
    forall k | 0 <= k < |steps|
      ensures FixedFieldsHold(steps[k])
    {
      MakeStepFixedFields(w, slots[k], k);
    }
  }

  /** Time-based duration, target_value 0, a name of at most 16 characters, intensity at most 2, bounds 0 when open. */
  predicate FixedFieldsHold(s: WorkoutStep) {
    && s.durationType == 0
    && s.targetValue == 0
    && |s.name| <= 16
    && s.intensity <= 2
    && (s.targetType == 0 ==> s.customTargetValueLow == 0 && s.customTargetValueHigh == 0)
  }

  lemma MakeStepFixedFields(w: Workout, s: Slot, index: nat)
    ensures FixedFieldsHold(MakeStep(w, s, index))
  {
    StepNameFallback(s.entry.name, s.seg.description, w.name);
    ResolveKinds(s.entry.targets);
  }

  /**
   * One interval segment played twice, with a 300 s entry at 75 % power and a
   * 120 s entry without target, gives four steps numbered 0..3, all of
   * intensity 1, alternating power 75..75 and open 0..0, and a header count of 4.
   */
  lemma ExampleIntervalWorkout()
    ensures var a := Entry(300.0, map["power" := Some(Single(Some(75.0)))], None);
      var b := Entry(120.0, map[], None);
      var w := Workout(None, [Segment(Interval, 2, [a, b], None)]);
      var steps := StepsOf(SaveTrace(w));
      && HeaderRecord(w).numValidSteps == 4
      && |steps| == 4
      && (forall i :: 0 <= i < 4 ==> steps[i].messageIndex == i && steps[i].intensity == 1)
      && steps[0].targetType == 1 && steps[0].customTargetValueLow == 75 && steps[0].customTargetValueHigh == 75
      && steps[0].durationValue == 300
      && steps[1].targetType == 0 && steps[1].customTargetValueLow == 0 && steps[1].customTargetValueHigh == 0
      && steps[1].durationValue == 120
      && steps[2] == steps[0].(messageIndex := 2)
      && steps[3] == steps[1].(messageIndex := 3)
  {
    var a := Entry(300.0, map["power" := Some(Single(Some(75.0)))], None);
    var b := Entry(120.0, map[], None);
    var seg := Segment(Interval, 2, [a, b], None);
    var w := Workout(None, [seg]);
    var pass := [Slot(seg, a), Slot(seg, b)];
    assert EntrySlots(seg, seg.entries) == pass;
    assert RepeatSlots(seg, 1) == pass;
    assert RepeatSlots(seg, 2) == pass + pass;
    assert [seg][..0] == [];
    assert Unrolled(w.segments) == pass + pass;
    assert NumValidSteps(w.segments) == 4;
    assert Resolve(a.targets) == Resolved(Power, 75.0, 75.0);
    assert Resolve(b.targets) == OpenTarget;
    assert Intensity(Interval.Value()) == 1;
    SaveStepsAre(w);
  }

}
