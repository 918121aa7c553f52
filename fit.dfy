/**
 * The FIT workout file as the exporter sees it: three message kinds with a
 * fixed field table each, and the records it packs. The byte layout and the
 * checksum are the encoder's business; here what the encoder is given is the
 * trace of calls made on it: definitions, records and the closing checksum.
 */
module Fit {

  datatype MessageKind = FileIdMsg | WorkoutMsg | WorkoutStepMsg

  datatype BaseType = Enum | Uint8 | Uint16 | Uint32 | Uint32z | Str

  /** One row of a message definition: field name, field definition number, base type. */
  datatype FieldDef = FieldDef(name: string, number: nat, base: BaseType)

  /** The static field table of each message kind, in declaration order. */
  function Schema(kind: MessageKind): seq<FieldDef> {
    match kind
    case FileIdMsg => [
      FieldDef("manufacturer", 1, Uint16),
      FieldDef("type", 0, Enum),
      FieldDef("product", 2, Uint16),
      FieldDef("serial_number", 3, Uint32z)]
    case WorkoutMsg => [
      FieldDef("sport", 4, Uint8),
      FieldDef("capabilities", 5, Uint32),
      FieldDef("num_valid_steps", 6, Uint16),
      FieldDef("wkt_name", 8, Str)]
    case WorkoutStepMsg => [
      FieldDef("message_index", 254, Uint16),
      FieldDef("duration_type", 0, Uint8),
      FieldDef("duration_value", 1, Uint32),
      FieldDef("target_type", 2, Uint8),
      FieldDef("target_value", 3, Uint32),
      FieldDef("custom_target_value_low", 4, Uint32),
      FieldDef("custom_target_value_high", 5, Uint32),
      FieldDef("intensity", 7, Uint8),
      FieldDef("wkt_step_name", 8, Str)]
  }

  /** Within one message kind no two fields share a definition number or a name. */
  lemma SchemaFieldsDistinct(kind: MessageKind)
    ensures forall i, j :: 0 <= i < j < |Schema(kind)| ==>
      Schema(kind)[i].number != Schema(kind)[j].number && Schema(kind)[i].name != Schema(kind)[j].name
  {
  }

  /** The values packed into one workout_step record. */
  datatype WorkoutStep = WorkoutStep(
    messageIndex: nat,
    durationType: nat,
    durationValue: int,
    targetType: nat,
    targetValue: int,
    customTargetValueLow: int,
    customTargetValueHigh: int,
    intensity: nat,
    name: string)

  /** A packed data record of one of the three message kinds. */
  datatype Record =
    | FileIdRec(manufacturer: nat, fileType: nat, product: nat, serialNumber: nat)
    | WorkoutRec(sport: nat, capabilities: nat, numValidSteps: int, name: string)
    | StepRec(step: WorkoutStep)
  {
    function Kind(): MessageKind {
      match this
      case FileIdRec(_, _, _, _) => FileIdMsg
      case WorkoutRec(_, _, _, _) => WorkoutMsg
      case StepRec(_) => WorkoutStepMsg
    }
  }

  /** A packed field value: a number or a string. */
  datatype FieldValue = Num(n: int) | Text(s: string)

  /** The (field definition number, value) pairs a record packs, in the order they are passed to `pack`. */
  function Pack(r: Record): seq<(nat, FieldValue)> {
    match r
    case FileIdRec(manufacturer, fileType, product, serialNumber) =>
      [(1, Num(manufacturer)), (0, Num(fileType)), (2, Num(product)), (3, Num(serialNumber))]
    case WorkoutRec(sport, capabilities, numValidSteps, name) =>
      [(4, Num(sport)), (5, Num(capabilities)), (6, Num(numValidSteps)), (8, Text(name))]
    case StepRec(st) =>
      [(254, Num(st.messageIndex)), (0, Num(st.durationType)), (1, Num(st.durationValue)),
       (2, Num(st.targetType)), (3, Num(st.targetValue)), (4, Num(st.customTargetValueLow)),
       (5, Num(st.customTargetValueHigh)), (7, Num(st.intensity)), (8, Text(st.name))]
  }

  /**
   * A record packs one value per field of its kind's definition, in
   * definition order and under that field's number; exactly the string
   * fields receive text.
   */
  lemma PackFollowsSchema(r: Record)
    ensures |Pack(r)| == |Schema(r.Kind())|
    ensures forall i :: 0 <= i < |Pack(r)| ==>
      Pack(r)[i].0 == Schema(r.Kind())[i].number && (Pack(r)[i].1.Text? <==> Schema(r.Kind())[i].base == Str)
  {
  }

  /** One call on the encoder: a definition, a data record, or the closing checksum. */
  datatype Event = Def(kind: MessageKind) | Rec(rec: Record) | Finish

  /** Every data record is immediately preceded by the definition of its own kind. */
  predicate DefinedBeforeRecords(t: seq<Event>) {
    forall i :: 0 <= i < |t| && t[i].Rec? ==> 0 < i && t[i - 1] == Def(t[i].rec.Kind())
  }

  /** The trace of writing each record right after a definition of its kind. */
  function Framed(recs: seq<Record>): (t: seq<Event>)
    ensures |t| == 2 * |recs|
  {
    if recs == [] then []
    else
      var last := recs[|recs| - 1];
      Framed(recs[..|recs| - 1]) + [Def(last.Kind()), Rec(last)]
  }

  lemma FramedSnoc(recs: seq<Record>, r: Record)
    ensures Framed(recs + [r]) == Framed(recs) + [Def(r.Kind()), Rec(r)]
  {
    assert (recs + [r])[..|recs|] == recs;
  }

  /** Position 2i holds the definition, position 2i+1 the i-th record. */
  lemma {:induction false} FramedAt(recs: seq<Record>, i: nat)
    requires i < |recs|
    ensures Framed(recs)[2 * i] == Def(recs[i].Kind())
    ensures Framed(recs)[2 * i + 1] == Rec(recs[i])
  {
    var init := recs[..|recs| - 1];
    if i < |recs| - 1 {
      FramedAt(init, i);
    }
  }

  /** Record i of the tail written after `head` sits at 2|head| + 2i + 1, right after its definition. */
  lemma FramedTailAt(head: seq<Record>, tail: seq<Record>, i: nat)
    requires i < |tail|
    ensures 2 * |head| + 2 * i + 1 < |Framed(head + tail)|
    ensures Framed(head + tail)[2 * |head| + 2 * i] == Def(tail[i].Kind())
    ensures Framed(head + tail)[2 * |head| + 2 * i + 1] == Rec(tail[i])
  {
    var recs := head + tail;
    var q := |head| + i;
    FramedAt(recs, q);
    assert recs[q] == tail[i];
    assert 2 * q == 2 * |head| + 2 * i;
  }

  /**
   * A finished trace of two leading records followed by step records: both
   * leading records come first, each with its definition, then step i at
   * 4 + 2i and 5 + 2i, and the checksum last.
   */
  lemma {:induction false} FinishedLayout(a: Record, b: Record, steps: seq<Record>)
    requires forall i :: 0 <= i < |steps| ==> steps[i].StepRec?
    ensures var t := Framed([a, b] + steps) + [Finish];
      && |t| == 2 * |steps| + 5
      && t[..4] == [Def(a.Kind()), Rec(a), Def(b.Kind()), Rec(b)]
      && (forall i :: 0 <= i < |steps| ==> t[4 + 2 * i] == Def(WorkoutStepMsg) && t[5 + 2 * i] == Rec(steps[i]))
      && t[|t| - 1] == Finish
  {
    var recs := [a, b] + steps;
    var f := Framed(recs);
    var t := f + [Finish];
    assert f[..4] == [Def(a.Kind()), Rec(a), Def(b.Kind()), Rec(b)] by {
      FramedAt(recs, 0);
      FramedAt(recs, 1);
    }
    forall i | 0 <= i < |steps|
      ensures f[4 + 2 * i] == Def(WorkoutStepMsg) && f[5 + 2 * i] == Rec(steps[i])
    {
      FramedTailAt([a, b], steps, i);
    }
    assert t[..4] == f[..4];
  }

  lemma FramedDefinedBeforeRecords(recs: seq<Record>)
    ensures DefinedBeforeRecords(Framed(recs) + [Finish])
  {
    var t := Framed(recs) + [Finish];
    forall i | 0 <= i < |t| && t[i].Rec?
      ensures 0 < i && t[i - 1] == Def(t[i].rec.Kind())
    {
      var q := i / 2;
      FramedAt(recs, q);
    }
  }

  /** The workout_step records of a trace, in the order they were written. */
  function StepsOf(events: seq<Event>): seq<WorkoutStep> {
    if events == [] then []
    else
      var last := events[|events| - 1];
      StepsOf(events[..|events| - 1]) + (if last.Rec? && last.rec.StepRec? then [last.rec.step] else [])
  }

  /** The workout_step payloads among a list of records, in order. */
  function StepsIn(recs: seq<Record>): seq<WorkoutStep> {
    if recs == [] then []
    else
      var last := recs[|recs| - 1];
      StepsIn(recs[..|recs| - 1]) + (if last.StepRec? then [last.step] else [])
  }

  /** Framing adds definitions only: the step records of a framed trace are those framed. */
  lemma {:induction false} StepsOfFramed(recs: seq<Record>)
    ensures StepsOf(Framed(recs)) == StepsIn(recs)
  {
    if recs != [] {
      var init := recs[..|recs| - 1];
      var last := recs[|recs| - 1];
      var x := Framed(init);
      assert Framed(recs) == x + [Def(last.Kind()), Rec(last)];
      assert (x + [Def(last.Kind()), Rec(last)])[..|x| + 1] == x + [Def(last.Kind())];
      assert (x + [Def(last.Kind())])[..|x|] == x;
      StepsOfFramed(init);
    }
  }

  lemma {:induction false} StepsInConcat(a: seq<Record>, b: seq<Record>)
    ensures StepsIn(a + b) == StepsIn(a) + StepsIn(b)
  {
    if b == [] {
      assert a + b == a;
    } else {
      var init := b[..|b| - 1];
      assert (a + b)[..|a + b| - 1] == a + init;
      StepsInConcat(a, init);
    }
  }

  /** When every record is a step record, StepsIn keeps them all, in order. */
  lemma {:induction false} StepsInAllSteps(recs: seq<Record>)
    requires forall i :: 0 <= i < |recs| ==> recs[i].StepRec?
    ensures |StepsIn(recs)| == |recs|
    ensures forall i :: 0 <= i < |recs| ==> StepsIn(recs)[i] == recs[i].step
  {
    if recs != [] {
      StepsInAllSteps(recs[..|recs| - 1]);
    }
  }

  lemma StepsOfFinished(events: seq<Event>)
    ensures StepsOf(events + [Finish]) == StepsOf(events)
  {
    assert (events + [Finish])[..|events|] == events;
  }
}
