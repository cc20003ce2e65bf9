/**
 Movement-count analyzers (`MovementCountAnalyzer`, main line and authentication
 variant). Each reads a few movement features (absent ones read as 0) and either
 short-circuits to "suspicious" (every score 1) when a feature is below its too-low
 floor, or scores each feature on its own with the opaque scoring function. A feature
 that is not a number makes the comparison raise; the exception handler then returns a
 fixed table with one key fewer in the main line.
 */
module MovementCount {
  import opened Records
  import opened Features
  import opened Scoring

  /** Python's `v < floor` on a feature value: `None` for the `TypeError` a non-number
      raises. */
  function Below(v: Value, floor: real): (r: Option<bool>)
    ensures r.None? <==> !IsNumber(v)
    ensures r.Some? ==> (r.value <==> AsReal(v) < floor)
  {
    if IsNumber(v) then Some(AsReal(v) < floor) else None
  }

  /** Python's `a or b` over comparisons that may raise: the right operand is evaluated
      only when the left one is false. */
  function Or(a: Option<bool>, b: Option<bool>): (r: Option<bool>)
    ensures a == Some(true) ==> r == Some(true)
    ensures a == Some(false) ==> r == b
    ensures a.None? ==> r.None?
  {
    match a
    case None => None
    case Some(x) => if x then Some(true) else b
  }

  /** The main line's configuration: feature keys and the too-low floors. */
  datatype HbConfig = HbConfig(
    pixelKey: string, countKey: string, angleKey: string,
    pixelFloor: real, countFloor: real, angleFloor: real)

  const HbDefault := HbConfig("pixel_per_movement", "mouse_movement_count", "overall_session_angle_std", 3.0, 50.0, 10.0)

  /** The fixed scoring parameters of the three features. */
  const PixelRuleHb := Rule(6.75, 16.862, 0.7, 0.7, 0.74, 1.0674)
  const CountRuleHb := Rule(250.0, 750.0, 0.6, 0.9, 0.8, 1.06)
  const AngleRuleHb := Rule(17.523, 23.512, 0.6, 0.9, 0.856, 1.063)

  /** The too-low test of the main line, evaluated left to right with short-circuit. */
  function TooLowHb(cfg: HbConfig, f: FeatureMap): Option<bool> {
    Or(Below(GetOr(f, cfg.pixelKey, Num(0.0)), cfg.pixelFloor),
       Or(Below(GetOr(f, cfg.countKey, Num(0.0)), cfg.countFloor),
          Below(GetOr(f, cfg.angleKey, Num(0.0)), cfg.angleFloor)))
  }

  /** Every feature the too-low test reads is a number and none is below its floor. */
  predicate PassesHb(cfg: HbConfig, f: FeatureMap) {
    var p := GetOr(f, cfg.pixelKey, Num(0.0));
    var c := GetOr(f, cfg.countKey, Num(0.0));
    var a := GetOr(f, cfg.angleKey, Num(0.0));
    IsNumber(p) && IsNumber(c) && IsNumber(a) &&
    AsReal(p) >= cfg.pixelFloor && AsReal(c) >= cfg.countFloor && AsReal(a) >= cfg.angleFloor
  }

  /** `MovementCountAnalyzer.__call__` of the main line. The score is the raw output of
      the scoring function (no clamp). */
  function MovementCountHb(cfg: HbConfig, s: Scorer, f: FeatureMap): (r: map<string, real>)
    ensures PassesHb(cfg, f) ==> r.Keys == {cfg.pixelKey, cfg.countKey, cfg.angleKey}
    ensures TooLowHb(cfg, f) == Some(true) ==>
      r == map[cfg.pixelKey := 1.0, cfg.countKey := 1.0, cfg.angleKey := 1.0]
    ensures TooLowHb(cfg, f).None? ==> r == map[cfg.pixelKey := 1.0, cfg.countKey := 1.0]
    ensures PassesHb(cfg, f) && cfg.pixelKey !in {cfg.countKey, cfg.angleKey} ==>
      r[cfg.pixelKey] == s.score(AsReal(GetOr(f, cfg.pixelKey, Num(0.0))), PixelRuleHb)
    ensures PassesHb(cfg, f) && cfg.countKey != cfg.angleKey ==>
      r[cfg.countKey] == s.score(AsReal(GetOr(f, cfg.countKey, Num(0.0))), CountRuleHb)
    ensures PassesHb(cfg, f) ==>
      r[cfg.angleKey] == s.score(AsReal(GetOr(f, cfg.angleKey, Num(0.0))), AngleRuleHb)
  {
    var p := GetOr(f, cfg.pixelKey, Num(0.0));
    var c := GetOr(f, cfg.countKey, Num(0.0));
    var a := GetOr(f, cfg.angleKey, Num(0.0));
    match TooLowHb(cfg, f)
    case None => map[cfg.pixelKey := 1.0, cfg.countKey := 1.0]
    case Some(low) =>
      if low then map[cfg.pixelKey := 1.0, cfg.countKey := 1.0, cfg.angleKey := 1.0]
      else
        assert PassesHb(cfg, f);
        map[cfg.pixelKey := s.score(AsReal(p), PixelRuleHb),
            cfg.countKey := s.score(AsReal(c), CountRuleHb),
            cfg.angleKey := s.score(AsReal(a), AngleRuleHb)]
  }

  /** The test either passes, fires, or raises, and it passes exactly when every feature
      is a number at or above its floor. */
  lemma TooLowHbIff(cfg: HbConfig, f: FeatureMap)
    ensures TooLowHb(cfg, f) == Some(false) <==> PassesHb(cfg, f)
  {
  }

  /** With the shipped floors, an absent density feature reads as 0 and fires the gate. */
  lemma MissingPixelGatesHb(s: Scorer, f: FeatureMap)
    requires HbDefault.pixelKey !in f
    ensures MovementCountHb(HbDefault, s, f) ==
      map["pixel_per_movement" := 1.0, "mouse_movement_count" := 1.0, "overall_session_angle_std" := 1.0]
  {
    assert TooLowHb(HbDefault, f) == Some(true);
  }

  /** Past the gate, each score depends on its own feature only: two records that agree on
      one feature get the same score for it, whatever else they hold. A key repeated in
      the literal keeps the later score. */
  lemma OwnFeatureOnlyHb(cfg: HbConfig, s: Scorer, f1: FeatureMap, f2: FeatureMap)
    requires PassesHb(cfg, f1) && PassesHb(cfg, f2)
    ensures (cfg.pixelKey !in {cfg.countKey, cfg.angleKey} &&
             GetOr(f1, cfg.pixelKey, Num(0.0)) == GetOr(f2, cfg.pixelKey, Num(0.0))) ==>
      MovementCountHb(cfg, s, f1)[cfg.pixelKey] == MovementCountHb(cfg, s, f2)[cfg.pixelKey]
    ensures (cfg.countKey != cfg.angleKey &&
             GetOr(f1, cfg.countKey, Num(0.0)) == GetOr(f2, cfg.countKey, Num(0.0))) ==>
      MovementCountHb(cfg, s, f1)[cfg.countKey] == MovementCountHb(cfg, s, f2)[cfg.countKey]
    ensures GetOr(f1, cfg.angleKey, Num(0.0)) == GetOr(f2, cfg.angleKey, Num(0.0)) ==>
      MovementCountHb(cfg, s, f1)[cfg.angleKey] == MovementCountHb(cfg, s, f2)[cfg.angleKey]
  {
  }

  /** A non-number never reached by the short-circuit does not raise: a low density gates
      even when the count is not a number. */
  lemma ShortCircuitHb(s: Scorer, f: FeatureMap)
    requires HbDefault.pixelKey in f && f[HbDefault.pixelKey] == Num(1.0)
    requires HbDefault.countKey in f && f[HbDefault.countKey] == Events([])
    ensures MovementCountHb(HbDefault, s, f)[HbDefault.angleKey] == 1.0
  {
    assert TooLowHb(HbDefault, f) == Some(true);
  }

  /** The authentication variant's configuration: two features. */
  datatype AuConfig = AuConfig(pixelKey: string, countKey: string, pixelFloor: real, countFloor: real)

  const AuDefault := AuConfig("pixel_per_movement", "mouse_movement_count", 4.0, 10.0)

  const PixelRuleAu := Rule(8.0, 30.0, 0.6, 0.65, 0.2, 1.5)
  const CountRuleAu := Rule(150.0, 500.0, 0.6, 0.65, 0.2, 1.5)

  function TooLowAu(cfg: AuConfig, f: FeatureMap): Option<bool> {
    Or(Below(GetOr(f, cfg.pixelKey, Num(0.0)), cfg.pixelFloor),
       Below(GetOr(f, cfg.countKey, Num(0.0)), cfg.countFloor))
  }

  /** `MovementCountAnalyzer.__call__` of the authentication variant. */
  function MovementCountAu(cfg: AuConfig, s: Scorer, f: FeatureMap): (r: map<string, real>)
    ensures r.Keys == {cfg.pixelKey, cfg.countKey}
    ensures TooLowAu(cfg, f) != Some(false) ==> r == map[cfg.pixelKey := 1.0, cfg.countKey := 1.0]
    ensures TooLowAu(cfg, f) == Some(false) && cfg.pixelKey != cfg.countKey ==>
      r[cfg.pixelKey] == s.score(AsReal(GetOr(f, cfg.pixelKey, Num(0.0))), PixelRuleAu) &&
      r[cfg.countKey] == s.score(AsReal(GetOr(f, cfg.countKey, Num(0.0))), CountRuleAu)
  {
    var p := GetOr(f, cfg.pixelKey, Num(0.0));
    var c := GetOr(f, cfg.countKey, Num(0.0));
    match TooLowAu(cfg, f)
    case None => map[cfg.pixelKey := 1.0, cfg.countKey := 1.0]
    case Some(low) =>
      if low then map[cfg.pixelKey := 1.0, cfg.countKey := 1.0]
      else map[cfg.pixelKey := s.score(AsReal(p), PixelRuleAu), cfg.countKey := s.score(AsReal(c), CountRuleAu)]
  }

  /** Both scores are 1 exactly when some feature is below its floor or not a number. */
  lemma GateIffAu(cfg: AuConfig, f: FeatureMap)
    ensures TooLowAu(cfg, f) != Some(false) <==>
      var p := GetOr(f, cfg.pixelKey, Num(0.0));
      var c := GetOr(f, cfg.countKey, Num(0.0));
      !IsNumber(p) || AsReal(p) < cfg.pixelFloor || !IsNumber(c) || AsReal(c) < cfg.countFloor
  {
  }
}
