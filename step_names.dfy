/**
 * Names written by the iGPSPORT exporter: the workout name in the header and
 * each step's name, both cut to their first 16 characters.
 */
module StepNames {
  import opened Wrappers
  import opened WorkoutModel

  const NameLimit: nat := 16

  /** Python's `s[:16]`. */
  function Truncate16(s: string): string {
    if |s| <= NameLimit then s else s[..NameLimit]
  }

  /** `s[:16]` is a prefix of s of at most 16 characters, all of s when s is short enough. */
  lemma Truncate16Cut(s: string)
    ensures Truncate16(s) <= s
    ensures |Truncate16(s)| <= NameLimit
    ensures |s| <= NameLimit ==> Truncate16(s) == s
    ensures |s| > NameLimit ==> |Truncate16(s)| == NameLimit
  {
  }

  /** The header's name: `workout.name[:16] if workout.name else "Workout"`. */
  function WorkoutName(name: Option<string>): string {
    if Present(name) then Truncate16(name.value) else "Workout"
  }

  /** The header name is never empty: the workout name cut to 16 characters, or "Workout" when it is empty. */
  lemma WorkoutNameFallback(name: Option<string>)
    ensures var r := WorkoutName(name);
      && r != "" && |r| <= NameLimit
      && (!Present(name) ==> r == "Workout")
      && (Present(name) ==> r <= name.value && (|name.value| <= NameLimit ==> r == name.value))
  {
    if Present(name) {
      Truncate16Cut(name.value);
    }
  }

  /** A step's name: `(entry.name or seg.description or workout.name)`, cut to 16 characters, or "". */
  function StepName(entryName: Option<string>, description: Option<string>, workoutName: Option<string>): string {
    var chosen := if Present(entryName) then entryName else if Present(description) then description else workoutName;
    if Present(chosen) then Truncate16(chosen.value) else ""
  }

  /**
   * The step name is the first non-empty of the entry name, the segment
   * description and the workout name, cut to 16 characters; it is "" exactly
   * when all three are empty.
   */
  lemma StepNameFallback(entryName: Option<string>, description: Option<string>, workoutName: Option<string>)
    ensures var r := StepName(entryName, description, workoutName);
      && |r| <= NameLimit
      && (Present(entryName) ==> r == Truncate16(entryName.value))
      && (!Present(entryName) && Present(description) ==> r == Truncate16(description.value))
      && (!Present(entryName) && !Present(description) && Present(workoutName) ==> r == Truncate16(workoutName.value))
      && (r == "" <==> !Present(entryName) && !Present(description) && !Present(workoutName))
  {
    var chosen := if Present(entryName) then entryName else if Present(description) then description else workoutName;
    if Present(chosen) {
      Truncate16Cut(chosen.value);
    }
  }
}
