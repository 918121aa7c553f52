/**
 * The in-memory workout that the exporter reads: a named list of segments,
 * each repeating a list of timed entries that may carry training targets.
 * The exporter never changes it, so every entity is a value.
 */
module WorkoutModel {
  import opened Wrappers

  /** The kind of a segment; `Value()` is the enum's string value the exporter looks up. */
  datatype SegmentType = Warmup | Cooldown | Interval | SteadyState | FreeRide | Ramp {
    function Value(): string {
      match this
      case Warmup => "warmup"
      case Cooldown => "cooldown"
      case Interval => "interval"
      case SteadyState => "steadystate"
      case FreeRide => "freeride"
      case Ramp => "ramp"
    }
  }

  /**
   * A training target: a single value, which may be missing, or a low/high range.
   * Power values are already scaled percentages; heart-rate values are raw.
   */
  datatype Target = Single(value: Option<real>) | Range(low: real, high: real) {
    predicate IsRange() {
      Range?
    }
  }

  /** Targets of an entry, keyed by alias ("HEARTRATE", "power", ...); a value may be None. */
  type TargetMap = map<string, Option<Target>>

  /** One timed step of a segment; `duration` is in seconds. */
  datatype Entry = Entry(duration: real, targets: TargetMap, name: Option<string>)

  /** A block of entries played `repeat` times in a row. */
  datatype Segment = Segment(kind: SegmentType, repeat: nat, entries: seq<Entry>, description: Option<string>)

  datatype Workout = Workout(name: Option<string>, segments: seq<Segment>)

  /** Python truthiness of an optional string: present and non-empty. */
  predicate Present(s: Option<string>) {
    s.Some? && s.value != ""
  }
}
