# iGPSPORT FIT workout exporter, modelled in Dafny

This project models the iGPSPORT parser of workout-converter
(`workout_converter/parsers/igpsport.py`). Its `save` turns an in-memory
workout into the messages of a Garmin FIT workout file:

- a `file_id` record with fixed values;
- a `workout` header record (message 26) with the sport, the step count and
  the workout name;
- one `workout_step` record (message 27) per step of the fully unrolled
  workout: segments in order, each segment `repeat` times, its entries in
  order;
- the closing checksum.

Each record is preceded by a definition of its message kind. Its `load`
always fails.

The FIT encoder is a foreign library. It is modelled by what it is given: a
trace of `Def(kind)`, `Rec(record)` and `Finish` events, appended one by one.
Bytes, field widths and the CRC are not modelled.

Modules, one per component of the exporter:

- `Wrappers` (wrappers.dfy): `Option` and `Result`.
- `WorkoutModel` (workout.dfy): the workout, its segments, its entries and
  their targets, as values.
- `Fit` (fit.dfy): the three message kinds and their field tables, the
  packed records, the event trace, and `Framed`, the trace of writing each
  record right after its definition.
- `TargetResolver` (target_resolver.dfy): the heart-rate / FTP-relative /
  power / open priority chain, as pure functions.
- `StepNames` (step_names.dfy): the 16-character name cut and the name
  fallbacks.
- `Sequencer` (sequencer.dfy): the order of the step loop (`Unrolled`), the
  header's step count, the intensity table and `int()` on a duration.
- `IGPSport` (igpsport.dfy): `Save`, proved equal to the specification
  `SaveTrace`, the lemmas about that trace, and `Load`.

`Save` is imperative, like the source. The file_id and header records are
written by `WriteHeader`. The three nested loops (segments, repetitions,
entries) are three methods, one per loop level: `Save`, `WriteSegment` and
`WritePass`. They thread the running message index
`msgIdx` and the event trace. Each method's contract ties its output to
`Framed(header + StepRecords(w, visits))`, where `visits` is the list of
(segment, entry) visits made so far. `Save` ends with
`events == SaveTrace(w)`. The properties of the saved file are then
lemmas about `SaveTrace`. `MakeStep` gives the record of one visit; it
takes the intensity from the segment type, and `SegmentIntensity` proves
that this equals the table lookup `Save` performs.

Python semantics that the model writes out:

- truthiness of `None`, `""` and `0`, and `a or b` on optional values;
- `dict.get(key, None)`;
- `int()` on a number, which truncates toward zero;
- `s[:16]`, a cut by character count.

Behaviour of the code worth noting:

- A heart-rate target whose single value is 0 leaves the step open. The code
  tests `hr.value` for truthiness (lines 112-114).
- A `workout_step` definition is written again before every step record
  (lines 140-142).
- Names are cut to 16 characters, whatever their UTF-8 byte length (lines 76
  and 152).

## Model

| member | source | states |
|---|---|---|
| `IGPSport.Load` | workout_converter/parsers/igpsport.py:13-14 | Loading always fails with a not-implemented error; no workout is produced. |
| `IGPSport.Save` | workout_converter/parsers/igpsport.py:52-156 | The calls made on the encoder are exactly `SaveTrace(w)`: file_id, header, every unrolled step, then the checksum. Every record follows a definition of its own kind. The number of step records equals the header's Σ repeat × entries. Step records carry message_index 0, 1, …, N-1 in order. |
| `IGPSport.WriteHeader` | workout_converter/parsers/igpsport.py:56-79 | Writes the file_id record (manufacturer 0x003C, type 4, product 65534, serial 12345678) and the workout header (sport 2, capabilities 0, the step count, the fallback name), each right after its definition. |
| `IGPSport.WriteSegment` | workout_converter/parsers/igpsport.py:95-155 | One segment's `range(repeat)` loop: it appends exactly the records of `repeat` passes over the segment's entries and advances the message index by that many steps. |
| `IGPSport.WritePass` | workout_converter/parsers/igpsport.py:98-155 | One pass over a segment's entries writes a definition and a record per entry, in entry order. Each record holds the resolved target, the fallback name, the truncated duration and the segment's intensity, and the message index counts up by one per entry. |
| `IGPSport.SaveStepsAre` | workout_converter/parsers/igpsport.py:95-155 | The step records of the trace are, in order, one per visit of the unrolled workout; record i is built from visit i with message_index i. |
| `IGPSport.SaveDefinesBeforeRecords` | workout_converter/parsers/igpsport.py:58-142 | In the saved trace every data record is immediately preceded by the definition of its own message kind. |
| `IGPSport.HeaderCountMatchesSteps` | workout_converter/parsers/igpsport.py:75 | The header's num_valid_steps equals the number of step records written. |
| `IGPSport.MessageIndicesSequential` | workout_converter/parsers/igpsport.py:81-155 | The step records carry message_index 0, 1, …, N-1 in the order written: no gaps, no repeats. |
| `IGPSport.SaveLayout` | workout_converter/parsers/igpsport.py:56-156 | The trace has 2N + 5 events. It starts with file_id (definition, record) and the workout header (definition, record). Visit i's definition and step record follow at positions 4 + 2i and 5 + 2i, and the checksum comes last. |
| `IGPSport.SaveStepAt` | workout_converter/parsers/igpsport.py:95-152 | Pass r of segment k writes entry j as step p = (steps of segments before k) + r × entries + j. That step is the entry's record with message_index p: the segment's intensity, the entry's duration truncated toward zero, the resolved target type and bounds truncated toward zero, and the fallback name. |
| `IGPSport.MakeStepFixedFields` | workout_converter/parsers/igpsport.py:143-152 | Any step the loop builds has duration_type 0 (time), target_value 0, a name of at most 16 characters and an intensity of at most 2; an open step has bounds 0. |
| `IGPSport.StepFixedFields` | workout_converter/parsers/igpsport.py:143-152 | Every step has duration_type 0 (time) and target_value 0, a name of at most 16 characters and an intensity of at most 2. Open steps have bounds 0. |
| `IGPSport.ExampleIntervalWorkout` | workout_converter/parsers/igpsport.py:95-155 | An interval segment repeated twice, with a 300 s entry at power 75 and a 120 s entry without a target, gives header count 4. It gives four steps numbered 0..3, all of intensity 1, alternating power 75..75 and open 0..0. |
| `Fit.SchemaFieldsDistinct` | workout_converter/parsers/igpsport.py:27-50 | In each of the three message definitions, no two fields share a field definition number or a name. |
| `Fit.FramedAt` | workout_converter/parsers/igpsport.py:58-71 | When each record is written right after its definition, position 2i holds the definition of record i's kind and position 2i + 1 holds record i. |
| `Fit.FramedDefinedBeforeRecords` | workout_converter/parsers/igpsport.py:58-71 | Writing every record right after its definition and then the checksum gives a trace in which every record follows its own definition. |
| `Fit.FinishedLayout` | workout_converter/parsers/igpsport.py:56-156 | With two leading records and then step records, the finished trace holds the two records with their definitions at positions 0-3, step i at 4 + 2i and 5 + 2i, and the checksum last. |
| `Fit.StepsInAllSteps` | workout_converter/parsers/igpsport.py:141-142 | A list made only of step records yields all its steps, in order. |
| `Fit.StepsOfFramed` | workout_converter/parsers/igpsport.py:141-142 | Definitions add no step records: the step records of a framed trace are those that were framed, in order. |
| `Sequencer.UnrolledLength` | workout_converter/parsers/igpsport.py:75 | The number of visits of the nested segment/repeat/entry loops equals Σ over segments of repeat × number of entries. |
| `Sequencer.RepeatSlotsLength` | workout_converter/parsers/igpsport.py:97-98 | `repeat` passes over a segment visit repeat × entries steps. |
| `Sequencer.RepeatSlotsAt` | workout_converter/parsers/igpsport.py:97-98 | Pass r of a segment visits entry j at position r × entries + j. |
| `Sequencer.UnrolledConcat` | workout_converter/parsers/igpsport.py:95 | The segments are unrolled one after another: unrolling a + b is unrolling a, then unrolling b. |
| `Sequencer.UnrolledAt` | workout_converter/parsers/igpsport.py:95-98 | Pass r of segment k visits entry j at position (steps of segments before k) + r × entries + j. |
| `Sequencer.IntensityTable` | workout_converter/parsers/igpsport.py:82-96 | The intensity lookup gives 0 exactly for "warmup", 2 exactly for "cooldown" and 1 for every other value, including values missing from the table. |
| `Sequencer.SegmentIntensity` | workout_converter/parsers/igpsport.py:82-96 | Looking a segment type's value up in the table gives warmup segments intensity 0, cooldown segments 2, and all other segment types 1. |
| `Sequencer.TruncationBounds` | workout_converter/parsers/igpsport.py:146-150 | `int()` on a number gives the integer part, truncated toward zero: a non-negative x gives n ≤ x < n + 1 with n ≥ 0, and a negative x gives n - 1 < x ≤ n with n ≤ 0. |
| `StepNames.Truncate16Cut` | workout_converter/parsers/igpsport.py:152 | `s[:16]` is a prefix of s with at most 16 characters. It is s itself when s has at most 16 characters and exactly 16 characters otherwise. |
| `StepNames.WorkoutNameFallback` | workout_converter/parsers/igpsport.py:76 | The header name is never empty and has at most 16 characters. It is "Workout" when the workout name is absent or empty. Otherwise it is a prefix of the workout name, and the whole name when that has at most 16 characters. |
| `StepNames.StepNameFallback` | workout_converter/parsers/igpsport.py:137-152 | The step name is the first non-empty of entry name, segment description and workout name, cut to 16 characters. It is "" exactly when all three are absent or empty. |
| `TargetResolver.ResolveKinds` | workout_converter/parsers/igpsport.py:99-135 | An open result has bounds 0. A heart-rate key present means the type is never power. A heart-rate type needs a heart-rate key and a power type needs a power key. Without any recognised key the step is open. |
| `TargetResolver.HeartRateResolution` | workout_converter/parsers/igpsport.py:106-114 | With a heart-rate key, the chosen heart-rate target gives a heart-rate step with its bounds when it is a range, and low = high = value when its value is non-zero. Otherwise the step is open. |
| `TargetResolver.PowerResolution` | workout_converter/parsers/igpsport.py:115-135 | Without a heart-rate key, the FTP-relative target (or else the first present power alias) gives power with its range, or with low = high = value for any value including 0, unscaled. Without a usable value the step is open. |
| `TargetResolver.HeartRateShadowsPower` | workout_converter/parsers/igpsport.py:106-115 | With a heart-rate key present, removing every power key changes nothing, and the type is heart rate or open. |
| `TargetResolver.FtpRelativeShadowsPower` | workout_converter/parsers/igpsport.py:115-127 | Without heart rate, an FTP-relative key makes the absolute power keys irrelevant. |
| `TargetResolver.UnknownKeysIgnored` | workout_converter/parsers/igpsport.py:99-135 | Keys other than the five recognised aliases have no influence on the result. |
| `TargetResolver.LoneTarget` | workout_converter/parsers/igpsport.py:106-135 | A single target under any one alias: a range copies its bounds, and a non-zero value gives low = high = value. A value of 0 gives power 0..0 but leaves a heart-rate step open, and a missing value leaves the step open. |
| `TargetResolver.NoUsableTargetIsOpen` | workout_converter/parsers/igpsport.py:101-135 | When every key maps to None or to a target without a value, the step is open with bounds 0. |
| `TargetResolver.AliasPrecedence` | workout_converter/parsers/igpsport.py:107-128 | Of two aliases, the upper-case one is used unless it maps to None. Then the lower-case one is used and the upper-case key has no influence. |
| `IGPSport.FileIdRecord` | workout_converter/parsers/igpsport.py:57-66 | Definition: the file_id record with manufacturer 0x003C, type 4 (workout), product 65534 and serial number 12345678; written by `WriteHeader`. |
| `IGPSport.HeaderRecord` | workout_converter/parsers/igpsport.py:68-78 | Definition: the workout header with sport 2, capabilities 0, `NumValidSteps` and `WorkoutName`; properties in `HeaderCountMatchesSteps` and `WorkoutNameFallback`. |
| `IGPSport.MakeStep` | workout_converter/parsers/igpsport.py:99-154 | Definition: the workout_step record of one visit; properties in `MakeStepFixedFields`, `SaveStepAt` and `SaveStepsAre`. |
| `IGPSport.StepRecords` | workout_converter/parsers/igpsport.py:95-155 | Definition: the step records of a list of visits, numbered from 0; properties in `StepsInStepRecords` and `SaveStepsAre`. |
| `IGPSport.StepsInStepRecords` | workout_converter/parsers/igpsport.py:140-155 | The step records of a list of visits hold, in order, visit i's step with message_index i. |
| `IGPSport.SaveTrace` | workout_converter/parsers/igpsport.py:56-156 | Definition: what `save` hands the encoder; properties in `SaveLayout`, `SaveStepsAre`, `SaveDefinesBeforeRecords`, `HeaderCountMatchesSteps`, `MessageIndicesSequential`, `SaveStepAt` and `StepFixedFields`. |
| `IGPSport.TraceGrows` | workout_converter/parsers/igpsport.py:140-155 | Writing one more visit appends exactly a workout_step definition and that visit's record to the trace. |
| `Fit.Schema` | workout_converter/parsers/igpsport.py:27-50 | Definition: the field table of each message kind; properties in `SchemaFieldsDistinct` and `PackFollowsSchema`. |
| `Fit.Pack` | workout_converter/parsers/igpsport.py:60-153 | Definition: the (field number, value) pairs a record packs; properties in `PackFollowsSchema`. |
| `Fit.PackFollowsSchema` | workout_converter/parsers/igpsport.py:27-50 | Every record packs exactly one value per field of its kind's definition, in definition order, with the field's number, and a text value exactly where the field is a string field. |
| `Fit.Framed` | workout_converter/parsers/igpsport.py:58-71 | Definition: each record written right after a definition of its kind; properties in `FramedAt`, `FramedTailAt`, `FramedDefinedBeforeRecords` and `StepsOfFramed`. |
| `Fit.FramedTailAt` | workout_converter/parsers/igpsport.py:140-142 | After any leading records, step i of the tail sits at 2·|head| + 2i + 1, right after its definition. |
| `Sequencer.EntrySlots` | workout_converter/parsers/igpsport.py:98 | Definition: one pass over a segment's entries, in order; properties in `RepeatSlotsAt`. |
| `Sequencer.RepeatSlots` | workout_converter/parsers/igpsport.py:97-98 | Definition: `repeat` passes over a segment's entries; properties in `RepeatSlotsLength` and `RepeatSlotsAt`. |
| `Sequencer.Unrolled` | workout_converter/parsers/igpsport.py:95-98 | Definition: every visit of the three nested loops, in order; properties in `UnrolledLength`, `UnrolledConcat` and `UnrolledAt`. |
| `Sequencer.NumValidSteps` | workout_converter/parsers/igpsport.py:75 | Definition: Σ over segments of repeat × number of entries; properties in `UnrolledLength` and `HeaderCountMatchesSteps`. |
| `Sequencer.Intensity` | workout_converter/parsers/igpsport.py:82-96 | Definition: `inten_map.get(value, 1)`; properties in `IntensityTable` and `SegmentIntensity`. |
| `Sequencer.KindIntensity` | workout_converter/parsers/igpsport.py:82-96 | Definition: the intensity per segment type, used by `MakeStep`; agrees with `Intensity` by `SegmentIntensity`. |
| `Sequencer.TruncateTowardZero` | workout_converter/parsers/igpsport.py:138-150 | Definition: `int()` on a number; properties in `TruncationBounds`. |
| `StepNames.Truncate16` | workout_converter/parsers/igpsport.py:76 | Definition: `s[:16]`; properties in `Truncate16Cut`. |
| `StepNames.WorkoutName` | workout_converter/parsers/igpsport.py:76 | Definition: the header's name fallback; properties in `WorkoutNameFallback`. |
| `StepNames.StepName` | workout_converter/parsers/igpsport.py:137-152 | Definition: the step's name fallback, cut to 16 characters; properties in `StepNameFallback`. |
| `TargetResolver.Resolve` | workout_converter/parsers/igpsport.py:99-135 | Definition: the heart-rate / FTP-relative / power / open chain; properties in `ResolveKinds`, `HeartRateResolution`, `PowerResolution`, `HeartRateShadowsPower`, `FtpRelativeShadowsPower`, `UnknownKeysIgnored`, `LoneTarget`, `NoUsableTargetIsOpen` and `AliasPrecedence`. |
| `TargetResolver.KeyTests` | workout_converter/parsers/igpsport.py:106-127 | A heart-rate key is present exactly when "HEARTRATE" or "heart_rate" is a key, and a power key exactly when "FTP_RELATIVE", "POWER" or "power" is. |
| `TargetResolver.HeartRateFrom` | workout_converter/parsers/igpsport.py:107-114 | Definition: the heart-rate branch; properties in `HeartRateResolution`. |
| `TargetResolver.PowerFrom` | workout_converter/parsers/igpsport.py:116-135 | Definition: the two power branches; properties in `PowerResolution`. |

## Left out

- The FIT byte encoding (headers, field sizes, endianness) and the CRC that
  `fit.finish()` writes belong to the external `fitencode` library. The
  model stops at the sequence of definitions, records and the checksum call.
- Opening the output file at the parser's path (line 53) and the
  `ImportError` raised when `fitencode` is missing (lines 17-23) are I/O and
  environment probing. `Save` returns the trace instead of writing a file.
- The encoder is modelled by the list of calls it receives, kept in a local
  sequence. The `FitEncode` object itself is not modelled.
- Floating point: durations and target values are `real`. `float()` is the
  identity on them, and `int()` truncates exactly.
- Integer widths: the record fields are unbounded integers. The code does
  not check them against their Uint8/Uint16/Uint32 widths, and the model
  adds no check either. Values the encoder could not store are not modelled.
- Global message numbers (`mesg_num` 26 and 27 at lines 34 and 41, and 0 for
  file_id inside `fitencode`) are part of the byte encoding; message kinds
  are an enumeration here.
- UTF-8 byte length of names: names are cut by character count, as the
  Python slice does.
- The workout classes (workout_converter/workout.py) are not part of this
  model. Their shape follows from how the exporter uses them:
  - segment type values are the six keys of the intensity table;
  - `repeat` is a natural number;
  - range bounds are numbers;
  - a target object is always truthy.
- `Save`: its contract is stated for `repeat` ≥ 0 only. A negative
  `repeat` would make Python's `range` empty while the header sum still
  subtracts. The model's `nat` type excludes this case.
