/**
 Mouse-event analyzers (`MouseEventAnalyzer`, main line and word-challenge variant): a
 chain of gates followed by a table of named `{score, weight}` entries. The compliance
 gate comes first: a verdict of 0 from the click comparer returns the single
 `bot_behavior` entry and nothing else is looked at. The velocity and checkbox-path
 results are parameters: the velocity analyzer is not part of this model, and
 `CheckboxEntryHb` links the checkbox entry to `CheckboxPath.PathScoreHb`.
 */
module MouseEvents {
  import opened Records
  import opened Features
  import opened Scoring
  import opened ScoreTable
  import ArgCompare
  import MovementCount
  import CheckboxPath

  /** `analyzer_scores.get(key, default)`. */
  function ScoreOr(m: map<string, real>, key: string, default: real): real {
    if key in m then m[key] else default
  }

  const BotBehavior := "bot_behavior"
  const ErrorScore := "error_score"

  /** The single-entry table of the gates. */
  function BotTable<S>(one: S): Table<S> {
    [Entry(BotBehavior, one, 1.0)]
  }

  /** The single-entry table of the exception handler. */
  function ErrorTable<S>(one: S): Table<S> {
    [Entry(ErrorScore, one, 1.0)]
  }

  /** Keys and weights of the main line. `angleKey`, `angleWeight` and `veryLow` are read
      from attributes the shipped configuration does not declare (`overall_session_angle_std`,
      its weight, `mouse_movements_very_low`); they are parameters here. */
  datatype HbConfig = HbConfig(
    velocityStdKey: string, velocityAvgKey: string, distanceKey: string,
    countKey: string, checkboxKey: string, angleKey: string, mouseDownKey: string,
    velocityStdWeight: real, velocityAvgWeight: real, distanceWeight: real,
    countWeight: real, checkboxWeight: real, angleWeight: real,
    veryLow: real,
    compare: ArgCompare.CompareConfig,
    movement: MovementCount.HbConfig)

  /** The shipped configuration, completed with the three undeclared values. */
  function HbDefault(angleKey: string, angleWeight: real, veryLow: real): HbConfig {
    HbConfig(
      "mouse_movement_stddev_velocity", "mouse_movement_avg_velocity", "pixel_per_movement",
      "mouse_movement_count", "checkbox_path_score", angleKey, "mouse_down_up_features",
      0.5, 0.5, 2.0, 1.0, 3.0, angleWeight,
      veryLow,
      ArgCompare.DefaultConfig,
      MovementCount.HbDefault)
  }

  /** The six entry names, in insertion order. */
  function SixNamesHb(cfg: HbConfig): seq<string> {
    [cfg.velocityStdKey, cfg.velocityAvgKey, cfg.distanceKey, cfg.countKey, cfg.checkboxKey, cfg.angleKey]
  }

  predicate KeysDistinctHb(cfg: HbConfig) {
    Distinct(SixNamesHb(cfg) + [cfg.mouseDownKey])
  }

  /** The entries of the `scores` dictionary literal of the main line. */
  function SixEntriesHb(cfg: HbConfig, velocity: map<string, real>, mc: map<string, real>, path: map<string, real>): (es: Table<real>)
    ensures Names(es) == SixNamesHb(cfg)
  {
    [Entry(cfg.velocityStdKey, ScoreOr(velocity, cfg.velocityStdKey, 1.0), cfg.velocityStdWeight),
     Entry(cfg.velocityAvgKey, ScoreOr(velocity, cfg.velocityAvgKey, 1.0), cfg.velocityAvgWeight),
     Entry(cfg.distanceKey, ScoreOr(mc, cfg.distanceKey, 1.0), cfg.distanceWeight),
     Entry(cfg.countKey, ScoreOr(mc, cfg.countKey, 1.0), cfg.countWeight),
     Entry(cfg.checkboxKey, ScoreOr(path, cfg.checkboxKey, 1.0), cfg.checkboxWeight),
     Entry(cfg.angleKey, ScoreOr(mc, cfg.angleKey, 1.0), cfg.angleWeight)]
  }

  /** The movement count read by the second gate: `None` for the `KeyError` of an absent
      feature and the `TypeError` of a non-number. */
  function CountFeature(cfg: HbConfig, f: FeatureMap): Option<real> {
    if cfg.countKey in f && IsNumber(f[cfg.countKey]) then Some(AsReal(f[cfg.countKey])) else None
  }

  /** Both gates pass and the mouse-down feature is a number: the table is built. */
  predicate PassesGatesHb(cfg: HbConfig, f: FeatureMap) {
    ArgCompare.Compare(cfg.compare, f) != Some(0) &&
    CountFeature(cfg, f).Some? && CountFeature(cfg, f).value >= cfg.veryLow &&
    IsNumber(GetOr(f, cfg.mouseDownKey, Num(1.0)))
  }

  /** `MouseEventAnalyzer.__call__` of the main line. */
  function MouseEventsHb(cfg: HbConfig, s: Scorer, velocity: map<string, real>, path: map<string, real>, f: FeatureMap): (r: Table<real>)
    ensures ArgCompare.Compare(cfg.compare, f) == Some(0) ==> r == BotTable(1.0)
    ensures ArgCompare.Compare(cfg.compare, f) != Some(0) && CountFeature(cfg, f).None? ==> r == ErrorTable(1.0)
    ensures (ArgCompare.Compare(cfg.compare, f) != Some(0) && CountFeature(cfg, f).Some? &&
             CountFeature(cfg, f).value < cfg.veryLow) ==> r == BotTable(1.0)
    ensures !PassesGatesHb(cfg, f) ==> r == BotTable(1.0) || r == ErrorTable(1.0)
  {
    if ArgCompare.Compare(cfg.compare, f) == Some(0) then BotTable(1.0)
    else
      match CountFeature(cfg, f)
      case None => ErrorTable(1.0)
      case Some(count) =>
        if count < cfg.veryLow then BotTable(1.0)
        else
          var mc := MovementCount.MovementCountHb(cfg.movement, s, f);
          var down := GetOr(f, cfg.mouseDownKey, Num(1.0));
          var es := SixEntriesHb(cfg, velocity, mc, path);
          var t := Build(es);
          if !IsNumber(down) then ErrorTable(1.0)
          else if AsReal(down) > 0.0 then Put(t, cfg.mouseDownKey, 1.0, 1.0)
          else t
  }

  /** Past the gates, with distinct keys, the table holds the six entries in order,
      followed by the mouse-down entry exactly when that feature is positive. */
  lemma FullTableHb(cfg: HbConfig, s: Scorer, velocity: map<string, real>, path: map<string, real>, f: FeatureMap)
    requires PassesGatesHb(cfg, f) && KeysDistinctHb(cfg)
    ensures Names(MouseEventsHb(cfg, s, velocity, path, f)) ==
      SixNamesHb(cfg) + (if AsReal(GetOr(f, cfg.mouseDownKey, Num(1.0))) > 0.0 then [cfg.mouseDownKey] else [])
  {
    var mc := MovementCount.MovementCountHb(cfg.movement, s, f);
    var es := SixEntriesHb(cfg, velocity, mc, path);
    DistinctSnoc(SixNamesHb(cfg), cfg.mouseDownKey);
    BuildDistinct(es);
    var r := MouseEventsHb(cfg, s, velocity, path, f);
    if AsReal(GetOr(f, cfg.mouseDownKey, Num(1.0))) > 0.0 {
      var e := Entry(cfg.mouseDownKey, 1.0, 1.0);
      assert r == es + [e];
      NamesAppend(es, e);
    } else {
      assert r == es;
    }
  }

  /** Past the gates, with distinct keys, each entry scores what its analyzer returned
      under its name (1.0 when the analyzer omitted it) with its configured weight, and
      the mouse-down entry, present exactly when that feature is positive, is
      `{score 1, weight 1.0}`. */
  lemma EntriesHb(cfg: HbConfig, s: Scorer, velocity: map<string, real>, path: map<string, real>, f: FeatureMap)
    requires PassesGatesHb(cfg, f) && KeysDistinctHb(cfg)
    ensures
      var r := MouseEventsHb(cfg, s, velocity, path, f);
      var mc := MovementCount.MovementCountHb(cfg.movement, s, f);
      Lookup(r, cfg.velocityStdKey) == Some(Entry(cfg.velocityStdKey, ScoreOr(velocity, cfg.velocityStdKey, 1.0), cfg.velocityStdWeight)) &&
      Lookup(r, cfg.velocityAvgKey) == Some(Entry(cfg.velocityAvgKey, ScoreOr(velocity, cfg.velocityAvgKey, 1.0), cfg.velocityAvgWeight)) &&
      Lookup(r, cfg.distanceKey) == Some(Entry(cfg.distanceKey, ScoreOr(mc, cfg.distanceKey, 1.0), cfg.distanceWeight)) &&
      Lookup(r, cfg.countKey) == Some(Entry(cfg.countKey, ScoreOr(mc, cfg.countKey, 1.0), cfg.countWeight)) &&
      Lookup(r, cfg.checkboxKey) == Some(Entry(cfg.checkboxKey, ScoreOr(path, cfg.checkboxKey, 1.0), cfg.checkboxWeight)) &&
      Lookup(r, cfg.angleKey) == Some(Entry(cfg.angleKey, ScoreOr(mc, cfg.angleKey, 1.0), cfg.angleWeight)) &&
      (AsReal(GetOr(f, cfg.mouseDownKey, Num(1.0))) > 0.0 ==>
        Lookup(r, cfg.mouseDownKey) == Some(Entry(cfg.mouseDownKey, 1.0, 1.0))) &&
      (AsReal(GetOr(f, cfg.mouseDownKey, Num(1.0))) <= 0.0 ==> Lookup(r, cfg.mouseDownKey).None?)
  {
    var mc := MovementCount.MovementCountHb(cfg.movement, s, f);
    var es := SixEntriesHb(cfg, velocity, mc, path);
    var r := MouseEventsHb(cfg, s, velocity, path, f);
    FullTableHb(cfg, s, velocity, path, f);
    DistinctSnoc(SixNamesHb(cfg), cfg.mouseDownKey);
    BuildDistinct(es);
    if AsReal(GetOr(f, cfg.mouseDownKey, Num(1.0))) > 0.0 {
      assert r == es + [Entry(cfg.mouseDownKey, 1.0, 1.0)];
      LookupDistinct(r, 6);
    } else {
      assert r == es;
    }
    LookupDistinct(r, 0);
    LookupDistinct(r, 1);
    LookupDistinct(r, 2);
    LookupDistinct(r, 3);
    LookupDistinct(r, 4);
    LookupDistinct(r, 5);
  }

  /** The checkbox-path analyzer returns its sequence score under the checkbox key. Fed
      that map, the table's checkbox entry carries the path score with its weight, so the
      entry lies in [0, 1], and it is 1 when the record has no valid click pair. */
  lemma CheckboxEntryHb(cfg: HbConfig, s: Scorer, velocity: map<string, real>, pcfg: CheckboxPath.PathConfig, f: FeatureMap)
    requires PassesGatesHb(cfg, f) && KeysDistinctHb(cfg)
    ensures
      var p := CheckboxPath.PathScoreHb(pcfg, s, f);
      var e := Lookup(MouseEventsHb(cfg, s, velocity, map[cfg.checkboxKey := p], f), cfg.checkboxKey);
      e == Some(Entry(cfg.checkboxKey, p, cfg.checkboxWeight)) &&
      0.0 <= e.value.score <= 1.0 &&
      (!(pcfg.validKey in f && Truthy(f[pcfg.validKey])) ==> e.value.score == 1.0)
  {
    EntriesHb(cfg, s, velocity, map[cfg.checkboxKey := CheckboxPath.PathScoreHb(pcfg, s, f)], f);
  }

  /** Past the gates, every one of the six names is in the table, whether or not the
      configured keys collide. */
  lemma SixNamesPresentHb(cfg: HbConfig, s: Scorer, velocity: map<string, real>, path: map<string, real>, f: FeatureMap)
    requires PassesGatesHb(cfg, f)
    ensures forall n :: n in SixNamesHb(cfg) ==> n in Names(MouseEventsHb(cfg, s, velocity, path, f))
  {
    var mc := MovementCount.MovementCountHb(cfg.movement, s, f);
    var es := SixEntriesHb(cfg, velocity, mc, path);
    BuildNames(es);
    var r := MouseEventsHb(cfg, s, velocity, path, f);
    if AsReal(GetOr(f, cfg.mouseDownKey, Num(1.0))) > 0.0 {
      var t := Build(es);
      assert r == Put(t, cfg.mouseDownKey, 1.0, 1.0);
      forall n | n in SixNamesHb(cfg) ensures n in Names(r) {
        if n != cfg.mouseDownKey {
          assert Lookup(r, n) == Lookup(t, n);
        }
      }
    }
  }

  /** An entry whose analyzer omitted its key scores 1.0: here the density entry, when the
      movement-count analyzer returned its exception table (two keys; the angle entry is
      the one left to its default). */
  lemma AngleDefaultsAfterCountFailure(cfg: HbConfig, s: Scorer, velocity: map<string, real>, path: map<string, real>, f: FeatureMap)
    requires PassesGatesHb(cfg, f) && KeysDistinctHb(cfg)
    requires AsReal(GetOr(f, cfg.mouseDownKey, Num(1.0))) <= 0.0
    requires cfg.angleKey != cfg.movement.pixelKey && cfg.angleKey != cfg.movement.countKey
    requires MovementCount.TooLowHb(cfg.movement, f).None?
    ensures Lookup(MouseEventsHb(cfg, s, velocity, path, f), cfg.angleKey) == Some(Entry(cfg.angleKey, 1.0, cfg.angleWeight))
  {
  }

  /** A compliance result of `None` (a script without click targets) is not a failure:
      with a sufficient movement count and no mouse-down feature, the full table with the
      mouse-down entry comes back. */
  lemma NoTargetsPassesGate(cfg: HbConfig, s: Scorer, velocity: map<string, real>, path: map<string, real>, f: FeatureMap)
    requires KeysDistinctHb(cfg)
    requires ArgCompare.Compare(cfg.compare, f).None?
    requires CountFeature(cfg, f).Some? && CountFeature(cfg, f).value >= cfg.veryLow
    requires cfg.mouseDownKey !in f
    ensures Names(MouseEventsHb(cfg, s, velocity, path, f)) == SixNamesHb(cfg) + [cfg.mouseDownKey]
  {
    assert GetOr(f, cfg.mouseDownKey, Num(1.0)) == Num(1.0);
    assert PassesGatesHb(cfg, f);
    FullTableHb(cfg, s, velocity, path, f);
  }

  /** Keys and weights of the word-challenge variant. */
  datatype WcConfig = WcConfig(
    velocityStdKey: string, velocityAvgKey: string, distanceKey: string,
    countKey: string, checkboxKey: string, mouseDownKey: string,
    velocityStdWeight: real, velocityAvgWeight: real, distanceWeight: real,
    countWeight: real, checkboxWeight: real, mouseDownWeight: real)

  function SixNamesWc(cfg: WcConfig): seq<string> {
    [cfg.velocityStdKey, cfg.velocityAvgKey, cfg.distanceKey, cfg.countKey, cfg.checkboxKey, cfg.mouseDownKey]
  }

  /** The first five entries of the word-challenge variant's dictionary literal. Its last
      entry, the mouse-down one, is added with `Put`, which is what the literal does with
      its last key. */
  function FiveEntriesWc(cfg: WcConfig, velocity: map<string, real>, mc: map<string, real>, path: map<string, real>): (es: Table<Value>)
    ensures Names(es) == SixNamesWc(cfg)[..5]
  {
    [Entry(cfg.velocityStdKey, Num(ScoreOr(velocity, cfg.velocityStdKey, 1.0)), cfg.velocityStdWeight),
     Entry(cfg.velocityAvgKey, Num(ScoreOr(velocity, cfg.velocityAvgKey, 1.0)), cfg.velocityAvgWeight),
     Entry(cfg.distanceKey, Num(ScoreOr(mc, cfg.distanceKey, 1.0)), cfg.distanceWeight),
     Entry(cfg.countKey, Num(ScoreOr(mc, cfg.countKey, 1.0)), cfg.countWeight),
     Entry(cfg.checkboxKey, Num(ScoreOr(path, cfg.checkboxKey, 1.0)), cfg.checkboxWeight)]
  }

  /** `MouseEventAnalyzer.__call__` of the word-challenge variant. Its comparer and its
      three analyzers are not part of this model: the compliance verdict and their result
      maps are parameters. Scores are feature values, since the mouse-down entry copies
      the raw feature. */
  function MouseEventsWc(cfg: WcConfig, argScore: Option<int>, velocity: map<string, real>, mc: map<string, real>,
                         path: map<string, real>, f: FeatureMap): (r: Table<Value>)
    ensures argScore == Some(0) ==> r == BotTable(Num(1.0))
    ensures argScore != Some(0) && "checkbox" !in f ==> r == BotTable(Num(1.0))
    ensures argScore != Some(0) && "checkbox" in f ==>
      Lookup(r, cfg.mouseDownKey) == Some(Entry(cfg.mouseDownKey, GetOr(f, cfg.mouseDownKey, Num(1.0)), cfg.mouseDownWeight))
    ensures argScore != Some(0) && "checkbox" in f && cfg.checkboxKey != cfg.mouseDownKey && cfg.checkboxKey !in path ==>
      Lookup(r, cfg.checkboxKey) == Some(Entry(cfg.checkboxKey, Num(1.0), cfg.checkboxWeight))
  {
    if argScore == Some(0) then BotTable(Num(1.0))
    else if "checkbox" !in f then BotTable(Num(1.0))
    else
      var es := FiveEntriesWc(cfg, velocity, mc, path);
      assert Lookup(Build(es), cfg.checkboxKey) == Some(es[4]);
      Put(Build(es), cfg.mouseDownKey, GetOr(f, cfg.mouseDownKey, Num(1.0)), cfg.mouseDownWeight)
  }

  /** With distinct keys, a record with a checkbox feature gets the six entries in
      order; no movement-count floor can cut the table short in this variant. */
  lemma FullTableWc(cfg: WcConfig, argScore: Option<int>, velocity: map<string, real>, mc: map<string, real>,
                    path: map<string, real>, f: FeatureMap)
    requires argScore != Some(0) && "checkbox" in f && Distinct(SixNamesWc(cfg))
    ensures Names(MouseEventsWc(cfg, argScore, velocity, mc, path, f)) == SixNamesWc(cfg)
  {
    var es := FiveEntriesWc(cfg, velocity, mc, path);
    assert SixNamesWc(cfg) == SixNamesWc(cfg)[..5] + [cfg.mouseDownKey];
    DistinctSnoc(Names(es), cfg.mouseDownKey);
    BuildDistinct(es);
    var e := Entry(cfg.mouseDownKey, GetOr(f, cfg.mouseDownKey, Num(1.0)), cfg.mouseDownWeight);
    assert MouseEventsWc(cfg, argScore, velocity, mc, path, f) == es + [e];
    NamesAppend(es, e);
  }

  /** With distinct keys and a checkbox feature, the velocity, distance, count and
      checkbox entries score what their analyzers returned (1.0 when omitted) with their
      configured weights. */
  lemma EntriesWc(cfg: WcConfig, argScore: Option<int>, velocity: map<string, real>, mc: map<string, real>,
                  path: map<string, real>, f: FeatureMap)
    requires argScore != Some(0) && "checkbox" in f && Distinct(SixNamesWc(cfg))
    ensures
      var r := MouseEventsWc(cfg, argScore, velocity, mc, path, f);
      Lookup(r, cfg.velocityStdKey) == Some(Entry(cfg.velocityStdKey, Num(ScoreOr(velocity, cfg.velocityStdKey, 1.0)), cfg.velocityStdWeight)) &&
      Lookup(r, cfg.velocityAvgKey) == Some(Entry(cfg.velocityAvgKey, Num(ScoreOr(velocity, cfg.velocityAvgKey, 1.0)), cfg.velocityAvgWeight)) &&
      Lookup(r, cfg.distanceKey) == Some(Entry(cfg.distanceKey, Num(ScoreOr(mc, cfg.distanceKey, 1.0)), cfg.distanceWeight)) &&
      Lookup(r, cfg.countKey) == Some(Entry(cfg.countKey, Num(ScoreOr(mc, cfg.countKey, 1.0)), cfg.countWeight)) &&
      Lookup(r, cfg.checkboxKey) == Some(Entry(cfg.checkboxKey, Num(ScoreOr(path, cfg.checkboxKey, 1.0)), cfg.checkboxWeight))
  {
    var es := FiveEntriesWc(cfg, velocity, mc, path);
    var r := MouseEventsWc(cfg, argScore, velocity, mc, path, f);
    FullTableWc(cfg, argScore, velocity, mc, path, f);
    assert SixNamesWc(cfg) == SixNamesWc(cfg)[..5] + [cfg.mouseDownKey];
    DistinctSnoc(Names(es), cfg.mouseDownKey);
    BuildDistinct(es);
    assert r == es + [Entry(cfg.mouseDownKey, GetOr(f, cfg.mouseDownKey, Num(1.0)), cfg.mouseDownWeight)];
    LookupDistinct(r, 0);
    LookupDistinct(r, 1);
    LookupDistinct(r, 2);
    LookupDistinct(r, 3);
    LookupDistinct(r, 4);
  }
}
