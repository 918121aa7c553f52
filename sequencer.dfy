/**
 * Step sequencing: the order in which the exporter visits the entries of a
 * workout (segments in order, each segment `repeat` times, entries in order),
 * the header's step count, and the per-step values derived from a segment or
 * an entry.
 */
module Sequencer {
  import opened WorkoutModel

  /** One visit of the step loop: the segment being played and one of its entries. */
  datatype Slot = Slot(seg: Segment, entry: Entry)

  /** The visits of one pass over `entries`. */
  function EntrySlots(seg: Segment, entries: seq<Entry>): seq<Slot> {
    seq(|entries|, i requires 0 <= i < |entries| => Slot(seg, entries[i]))
  }

  lemma EntrySlotsSnoc(seg: Segment, j: nat)
    requires j < |seg.entries|
    ensures EntrySlots(seg, seg.entries[..j + 1]) == EntrySlots(seg, seg.entries[..j]) + [Slot(seg, seg.entries[j])]
  {
  }

  /** The visits of `n` passes over the segment's entries. */
  function RepeatSlots(seg: Segment, n: nat): seq<Slot> {
    if n == 0 then [] else RepeatSlots(seg, n - 1) + EntrySlots(seg, seg.entries)
  }

  /** One more pass over the entries, after any earlier visits `done`. */
  lemma RepeatSlotsGrow(done: seq<Slot>, seg: Segment, n: nat)
    ensures done + RepeatSlots(seg, n) + EntrySlots(seg, seg.entries) == done + RepeatSlots(seg, n + 1)
  {
  }

  /** Every visit of the step loop, in order: the fully unrolled workout. */
  function Unrolled(segs: seq<Segment>): seq<Slot> {
    if segs == [] then []
    else
      var last := segs[|segs| - 1];
      Unrolled(segs[..|segs| - 1]) + RepeatSlots(last, last.repeat)
  }

  lemma UnrolledSnoc(segs: seq<Segment>, k: nat)
    requires k < |segs|
    ensures Unrolled(segs[..k + 1]) == Unrolled(segs[..k]) + RepeatSlots(segs[k], segs[k].repeat)
  {
    assert segs[..k + 1][..k] == segs[..k];
  }

  /** The header's `num_valid_steps`: the sum over segments of repeat times the number of entries. */
  function NumValidSteps(segs: seq<Segment>): nat {
    if segs == [] then 0
    else
      var last := segs[|segs| - 1];
      NumValidSteps(segs[..|segs| - 1]) + last.repeat * |last.entries|
  }

  lemma {:induction false} RepeatSlotsLength(seg: Segment, n: nat)
    ensures |RepeatSlots(seg, n)| == n * |seg.entries|
  {
    if n > 0 {
      RepeatSlotsLength(seg, n - 1);
      assert n * |seg.entries| == (n - 1) * |seg.entries| + |seg.entries|;
    }
  }

  /** The header count is the number of visits of the step loop. */
  lemma {:induction false} UnrolledLength(segs: seq<Segment>)
    ensures |Unrolled(segs)| == NumValidSteps(segs)
  {
    if segs != [] {
      var last := segs[|segs| - 1];
      UnrolledLength(segs[..|segs| - 1]);
      RepeatSlotsLength(last, last.repeat);
    }
  }

  /** Pass `r` of a segment visits entry `j` at position r * |entries| + j. */
  lemma {:induction false} RepeatSlotsAt(seg: Segment, n: nat, r: nat, j: nat)
    requires r < n && j < |seg.entries|
    ensures r * |seg.entries| + j < |RepeatSlots(seg, n)|
    ensures RepeatSlots(seg, n)[r * |seg.entries| + j] == Slot(seg, seg.entries[j])
  {
    var m := |seg.entries|;
    RepeatSlotsLength(seg, n - 1);
    if r < n - 1 {
      RepeatSlotsAt(seg, n - 1, r, j);
    } else {
      assert r * m == (n - 1) * m;
    }
  }

  lemma {:induction false} UnrolledConcat(a: seq<Segment>, b: seq<Segment>)
    ensures Unrolled(a + b) == Unrolled(a) + Unrolled(b)
  {
    if b == [] {
      assert a + b == a;
    } else {
      var init := b[..|b| - 1];
      assert (a + b)[..|a + b| - 1] == a + init;
      UnrolledConcat(a, init);
    }
  }

  /**
   * Segments are played in order and each is unrolled in place: pass `r` of
   * segment `k` visits entry `j` right after all earlier segments' steps.
   */
  lemma {:induction false} UnrolledAt(segs: seq<Segment>, k: nat, r: nat, j: nat)
    requires k < |segs| && r < segs[k].repeat && j < |segs[k].entries|
    ensures var p := NumValidSteps(segs[..k]) + r * |segs[k].entries| + j;
      p < |Unrolled(segs)| && Unrolled(segs)[p] == Slot(segs[k], segs[k].entries[j])
  {
    var seg := segs[k];
    var before, rest := segs[..k], segs[k + 1..];
    var middle := RepeatSlots(seg, seg.repeat);
    var p := r * |seg.entries| + j;
    RepeatSlotsAt(seg, seg.repeat, r, j);
    assert p < |middle| && middle[p] == Slot(seg, seg.entries[j]);
    UnrolledLength(before);
    assert Unrolled(segs) == Unrolled(before) + middle + Unrolled(rest) by {
      assert segs == before + [seg] + rest;
      UnrolledConcat(before + [seg], rest);
      UnrolledConcat(before, [seg]);
      assert [seg][..0] == [];
      assert Unrolled([seg]) == middle;
    }
    assert Unrolled(segs)[|Unrolled(before)| + p] == middle[p];
  }

  /** The intensity table, looked up by the segment type's value. */
  const IntensityMap: map<string, nat> :=
    map["warmup" := 0, "cooldown" := 2, "interval" := 1, "steadystate" := 1, "freeride" := 1, "ramp" := 1]

  /** `inten_map.get(value, 1)`. */
  function Intensity(typeValue: string): nat {
    if typeValue in IntensityMap then IntensityMap[typeValue] else 1
  }

  /** Warmup is 0, cooldown is 2, every other value (known or not) is 1. */
  lemma IntensityTable(typeValue: string)
    ensures Intensity(typeValue) == 0 <==> typeValue == "warmup"
    ensures Intensity(typeValue) == 2 <==> typeValue == "cooldown"
    ensures Intensity(typeValue) == 1 <==> typeValue != "warmup" && typeValue != "cooldown"
  {
  }

  /**
   * The intensity a segment type is given: warmup 0, cooldown 2, everything
   * else 1. This is `Intensity` on the type's value, stated on the enumeration
   * so that the step records do not carry a string-table lookup into every
   * proof about them; `SegmentIntensity` proves the two agree.
   */
  function KindIntensity(kind: SegmentType): nat {
    match kind
    case Warmup => 0
    case Cooldown => 2
    case _ => 1
  }

  /** Looking a segment type's value up in the table gives its kind's intensity. */
  lemma SegmentIntensity(kind: SegmentType)
    ensures Intensity(kind.Value()) == KindIntensity(kind)
    ensures KindIntensity(kind) == 0 <==> kind == Warmup
    ensures KindIntensity(kind) == 2 <==> kind == Cooldown
  {
  }

  /** Python's `int(x)` on a number. */
  function TruncateTowardZero(x: real): int {
    if 0.0 <= x then x.Floor else -((-x).Floor)
  }

  /** `int(x)` is the integer part of x, truncated toward zero. */
  lemma TruncationBounds(x: real)
    ensures var n := TruncateTowardZero(x);
      && (0.0 <= x ==> 0 <= n && n as real <= x < n as real + 1.0)
      && (x < 0.0 ==> n <= 0 && n as real - 1.0 < x <= n as real)
  {
  }
}
