/**
 * Target resolution of the iGPSPORT exporter: the targets of one entry become
 * a (target type, low, high) triple. Heart rate is probed first, then power
 * relative to FTP, then absolute power; anything else leaves the step open.
 */
module TargetResolver {
  import opened Wrappers
  import opened WorkoutModel

  /** The FIT target types the exporter uses, with their wire codes. */
  datatype TargetKind = Open | Power | HeartRate {
    function Code(): nat {
      match this
      case Open => 0
      case Power => 1
      case HeartRate => 2
    }
  }

  /** The resolved target, before `int()` is applied to the bounds. */
  datatype Resolved = Resolved(kind: TargetKind, low: real, high: real)

  const OpenTarget := Resolved(Open, 0.0, 0.0)

  const HeartRateKeys: set<string> := {"HEARTRATE", "heart_rate"}
  const PowerKeys: set<string> := {"FTP_RELATIVE", "POWER", "power"}

  predicate HasHeartRateKey(t: TargetMap) {
    HeartRateKeys * t.Keys != {}
  }

  predicate HasPowerKey(t: TargetMap) {
    PowerKeys * t.Keys != {}
  }

  /** The predicates, key by key: the two `in` tests of line 106 and the three of lines 115 and 127. */
  lemma KeyTests(t: TargetMap)
    ensures HasHeartRateKey(t) <==> "HEARTRATE" in t || "heart_rate" in t
    ensures HasPowerKey(t) <==> "FTP_RELATIVE" in t || "POWER" in t || "power" in t
  {
    if "HEARTRATE" in t { assert "HEARTRATE" in HeartRateKeys * t.Keys; }
    if "heart_rate" in t { assert "heart_rate" in HeartRateKeys * t.Keys; }
    if "FTP_RELATIVE" in t { assert "FTP_RELATIVE" in PowerKeys * t.Keys; }
    if "POWER" in t { assert "POWER" in PowerKeys * t.Keys; }
    if "power" in t { assert "power" in PowerKeys * t.Keys; }
  }

  /** `targets.get(key, None)`. */
  function Get(t: TargetMap, key: string): Option<Target> {
    if key in t then t[key] else None
  }

  /** Python's `a or b` on two optional targets: a target object is truthy, None is not. */
  function OrElse(a: Option<Target>, b: Option<Target>): Option<Target> {
    if a.Some? then a else b
  }

  /** Python truthiness of an optional number: present and non-zero. */
  predicate Truthy(v: Option<real>) {
    v.Some? && v.value != 0.0
  }

  /** The heart-rate branch: a range, or a truthy single value, gives a heart-rate target. */
  function HeartRateFrom(hr: Option<Target>): Resolved {
    if hr.Some? && hr.value.IsRange() then Resolved(HeartRate, hr.value.low, hr.value.high)
    else if hr.Some? && Truthy(hr.value.value) then Resolved(HeartRate, hr.value.value.value, hr.value.value.value)
    else OpenTarget
  }

  /** The power branches: a range, or any single value that is not None, gives a power target. */
  function PowerFrom(pw: Option<Target>): Resolved {
    if pw.Some? && pw.value.IsRange() then Resolved(Power, pw.value.low, pw.value.high)
    else if pw.Some? && pw.value.value.Some? then Resolved(Power, pw.value.value.value, pw.value.value.value)
    else OpenTarget
  }

  /** The if/elif chain over the entry's targets. */
  function Resolve(t: TargetMap): Resolved {
    if HasHeartRateKey(t) then
      HeartRateFrom(OrElse(Get(t, "HEARTRATE"), Get(t, "heart_rate")))
    else if "FTP_RELATIVE" in t then
      PowerFrom(Get(t, "FTP_RELATIVE"))
    else if "POWER" in t || "power" in t then
      PowerFrom(OrElse(Get(t, "POWER"), Get(t, "power")))
    else
      OpenTarget
  }

  /**
   * An open step has bounds 0; heart rate needs a heart-rate key and shadows
   * power; power needs a power key; with no recognised key the step is open.
   */
  lemma ResolveKinds(t: TargetMap)
    ensures var r := Resolve(t);
      && (r.kind == Open ==> r.low == 0.0 && r.high == 0.0)
      && (HasHeartRateKey(t) ==> r.kind != Power)
      && (r.kind == HeartRate ==> HasHeartRateKey(t))
      && (r.kind == Power ==> HasPowerKey(t))
      && (!HasHeartRateKey(t) && !HasPowerKey(t) ==> r == OpenTarget)
  {
    KeyTests(t);
  }

  /**
   * With a heart-rate key present the step is a heart-rate step when the
   * chosen target is a range or holds a non-zero value, and open otherwise.
   */
  lemma HeartRateResolution(t: TargetMap)
    requires HasHeartRateKey(t)
    ensures var hr := OrElse(Get(t, "HEARTRATE"), Get(t, "heart_rate"));
      && (hr.Some? && hr.value.Range? ==> Resolve(t) == Resolved(HeartRate, hr.value.low, hr.value.high))
      && (hr.Some? && hr.value.Single? && Truthy(hr.value.value) ==>
            Resolve(t) == Resolved(HeartRate, hr.value.value.value, hr.value.value.value))
      && (hr.None? || (hr.value.Single? && !Truthy(hr.value.value)) ==> Resolve(t) == OpenTarget)
  {
  }

  /**
   * Without a heart-rate key, the FTP-relative target, or else the first
   * present absolute power alias, gives a power step when it is a range or
   * holds any value (0 included), unscaled; otherwise the step is open.
   */
  lemma PowerResolution(t: TargetMap)
    requires !HasHeartRateKey(t) && HasPowerKey(t)
    ensures var pw := if "FTP_RELATIVE" in t then Get(t, "FTP_RELATIVE") else OrElse(Get(t, "POWER"), Get(t, "power"));
      && (pw.Some? && pw.value.Range? ==> Resolve(t) == Resolved(Power, pw.value.low, pw.value.high))
      && (pw.Some? && pw.value.Single? && pw.value.value.Some? ==>
            Resolve(t) == Resolved(Power, pw.value.value.value, pw.value.value.value))
      && (pw.None? || pw.value == Single(None) ==> Resolve(t) == OpenTarget)
  {
  }

  /** With a heart-rate key present, every power key is ignored. */
  lemma HeartRateShadowsPower(t: TargetMap)
    requires HasHeartRateKey(t)
    ensures Resolve(t) == Resolve(t - PowerKeys)
    ensures Resolve(t).kind in {Open, HeartRate}
  {
    var u := t - PowerKeys;
    assert Get(u, "HEARTRATE") == Get(t, "HEARTRATE");
    assert Get(u, "heart_rate") == Get(t, "heart_rate");
  }

  /** Without heart rate, an FTP-relative target wins over absolute power keys. */
  lemma FtpRelativeShadowsPower(t: TargetMap)
    requires !HasHeartRateKey(t) && "FTP_RELATIVE" in t
    ensures Resolve(t) == Resolve(t - {"POWER", "power"})
  {
  }

  /** Keys other than the five aliases do not influence the result. */
  lemma UnknownKeysIgnored(t: TargetMap)
    ensures Resolve(t) == Resolve(map k | k in t && k in HeartRateKeys + PowerKeys :: t[k])
  {
  }

  /**
   * A lone target under one alias: both power aliases give the same type code
   * with the bounds copied unscaled; a single value counts for power even when
   * it is 0, but for heart rate only when it is non-zero.
   */
  lemma LoneTarget(key: string, tg: Target)
    requires key in HeartRateKeys + PowerKeys
    ensures var r := Resolve(map[key := Some(tg)]);
      var kind := if key in HeartRateKeys then HeartRate else Power;
      && (tg.Range? ==> r == Resolved(kind, tg.low, tg.high))
      && (tg.Single? && tg.value.Some? && tg.value.value != 0.0 ==> r == Resolved(kind, tg.value.value, tg.value.value))
      && (tg == Single(Some(0.0)) ==> r == if kind == Power then Resolved(Power, 0.0, 0.0) else OpenTarget)
      && (tg == Single(None) ==> r == OpenTarget)
  {
  }

  /** A recognised key whose value is None, or holds no value, leaves the step open. */
  lemma NoUsableTargetIsOpen(t: TargetMap)
    requires forall k :: k in t ==> t[k] == None || t[k] == Some(Single(None))
    ensures Resolve(t) == OpenTarget
  {
  }

  /**
   * Of two aliases, the upper-case one is used unless it maps to None, in which
   * case the lower-case one is used.
   */
  lemma AliasPrecedence(t: TargetMap)
    ensures Get(t, "HEARTRATE").Some? ==> Resolve(t) == Resolve(t - {"heart_rate"})
    ensures Get(t, "HEARTRATE").None? && "heart_rate" in t ==> Resolve(t) == Resolve(t - {"HEARTRATE"})
    ensures !HasHeartRateKey(t) && Get(t, "POWER").Some? ==> Resolve(t) == Resolve(t - {"power"})
    ensures !HasHeartRateKey(t) && "FTP_RELATIVE" !in t && Get(t, "POWER").None? && "power" in t ==>
      Resolve(t) == Resolve(t - {"POWER"})
  {
    KeyTests(t);
    KeyTests(t - {"heart_rate"});
    KeyTests(t - {"HEARTRATE"});
  }
}
