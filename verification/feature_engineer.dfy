/**
 The feature engineer of the main line (`FeatureEngineer`): it runs the movement,
 press/move, checkbox and session processors on the raw event lists and merges their
 dictionaries left to right (a later key wins), ending with the raw click list echoed
 under its own key. The keyboard processor is disabled in the source, so no keyboard
 feature is ever produced.
 */
module FeatureEngineer {
  import opened Records
  import opened Geometry
  import opened Features
  import MouseMovement
  import MouseDownUp
  import CheckboxEventsHb
  import Session
  import Paths

  /** The raw input: event lists by field name. */
  type RawData = map<string, seq<Record>>

  /** `data.get(key, [])`. */
  function ListOr(data: RawData, key: string): seq<Record> {
    if key in data then data[key] else []
  }

  /** Field names and parameters of the four processors. The movement processor's
      configuration of the main line is not part of this model: its names are those of
      the word-challenge configuration, and `angleKey` is a parameter. The row keys
      `rowAngleKey` and `rowConsistencyKey` are read from attributes the checkbox
      configuration does not declare; they are parameters too. */
  datatype EngineerConfig = EngineerConfig(
    movementKey: string, clickKey: string,
    velocityStdKey: string, velocityAvgKey: string, pixelKey: string, countKey: string, angleKey: string,
    floor: int,
    downKey: string, downMovementsKey: string, downOutputKey: string, tolerance: int,
    checkbox: CheckboxEventsHb.CheckboxConfig,
    checkboxClickKey: string, validKey: string, mainKey: string,
    rowAngleKey: string, rowStraightKey: string, rowConsistencyKey: string,
    sessionKey: string, sessionOutputKey: string)

  function DefaultConfig(angleKey: string, rowAngleKey: string, rowConsistencyKey: string): EngineerConfig {
    EngineerConfig(
      "mouse_movements", "mouse_clicks",
      "mouse_movement_stddev_velocity", "mouse_movement_avg_velocity", "pixel_per_movement", "mouse_movement_count", angleKey,
      MouseMovement.DefaultFloor,
      "mouse_mouseDowns", "mouse_movements", "mouse_down_up_features", MouseDownUp.DefaultTolerance,
      CheckboxEventsHb.DefaultConfig,
      "mouse_clicks", "is_valid", "between_path",
      rowAngleKey, "straightness", rowConsistencyKey,
      "mouse_movements", "session_time")
  }

  /** The movement processor's dictionary: the error dictionary has no angle key. */
  function MovementPart(cfg: EngineerConfig, g: Geometry, data: RawData): (m: FeatureMap)
    ensures {cfg.velocityStdKey, cfg.velocityAvgKey, cfg.pixelKey, cfg.countKey} <= m.Keys
    ensures m.Keys <= {cfg.velocityStdKey, cfg.velocityAvgKey, cfg.pixelKey, cfg.countKey, cfg.angleKey}
    ensures cfg.countKey != cfg.angleKey ==>
      var mm := ListOr(data, cfg.movementKey);
      var failed := |mm| > 0 && |ListOr(data, cfg.clickKey)| < |mm| && !AllParse(mm);
      m[cfg.countKey] == Num(if failed then 0.0 else |mm| as real)
  {
    var r := MouseMovement.Movement(g, ListOr(data, cfg.movementKey), ListOr(data, cfg.clickKey), cfg.floor);
    var base := map[
      cfg.velocityStdKey := Num(r.velocityStd),
      cfg.velocityAvgKey := Num(r.velocityAvg),
      cfg.pixelKey := Num(r.pixelPerMovement),
      cfg.countKey := Num(r.count as real)];
    match r.angleStd
    case None => base
    case Some(a) => base[cfg.angleKey := Num(a)]
  }

  /** The press/move processor's dictionary. */
  function DownUpPart(cfg: EngineerConfig, data: RawData): (m: FeatureMap)
    ensures m.Keys == {cfg.downOutputKey}
    ensures m[cfg.downOutputKey] == Num(0.0) || m[cfg.downOutputKey] == Num(1.0)
  {
    var flag := MouseDownUp.Flag(ListOr(data, cfg.downKey), ListOr(data, cfg.downMovementsKey), cfg.tolerance);
    map[cfg.downOutputKey := Num(flag as real)]
  }

  /** One interval row as a dictionary. */
  function RowMap(cfg: EngineerConfig, row: CheckboxEventsHb.PathRow): map<string, real> {
    map[cfg.rowAngleKey := row.angleStd, cfg.rowStraightKey := row.straightness, cfg.rowConsistencyKey := row.consistency]
  }

  function RowMaps(cfg: EngineerConfig, rows: seq<CheckboxEventsHb.PathRow>): (ms: seq<map<string, real>>)
    ensures |ms| == |rows|
    ensures forall i :: 0 <= i < |rows| ==> ms[i] == RowMap(cfg, rows[i])
  {
    if |rows| == 0 then [] else [RowMap(cfg, rows[0])] + RowMaps(cfg, rows[1..])
  }

  /** The checkbox processor's dictionary: `{}` when it drops its result. Its movement
      list is read under the literal key `mouse_movements`. */
  function CheckboxPart(cfg: EngineerConfig, g: Geometry, data: RawData): (m: FeatureMap)
    ensures m.Keys == {} || m.Keys == {cfg.validKey, cfg.mainKey}
    ensures ListOr(data, cfg.checkboxClickKey) == [] ==> m == map[]
  {
    match CheckboxEventsHb.Checkbox(cfg.checkbox, g, ListOr(data, cfg.checkboxClickKey), ListOr(data, "mouse_movements"))
    case Dropped => map[]
    case Features(valid, rows) => map[cfg.validKey := Flag(valid), cfg.mainKey := Rows(RowMaps(cfg, rows))]
  }

  /** The session processor's dictionary. */
  function SessionPart(cfg: EngineerConfig, data: RawData): (m: FeatureMap)
    ensures m.Keys == {cfg.sessionOutputKey}
  {
    map[cfg.sessionOutputKey := Num(Session.Duration(ListOr(data, cfg.sessionKey)))]
  }

  /** `{**movement, **downup, **checkbox, **session, clicks: …}`: a later dictionary wins. */
  function Merge(movement: FeatureMap, downUp: FeatureMap, checkbox: FeatureMap, session: FeatureMap,
                 clickKey: string, clicks: Value): (r: FeatureMap)
    ensures r.Keys == movement.Keys + downUp.Keys + checkbox.Keys + session.Keys + {clickKey}
    ensures r[clickKey] == clicks
    ensures forall k :: k in session && k != clickKey ==> r[k] == session[k]
    ensures forall k :: k in checkbox && k !in session && k != clickKey ==> r[k] == checkbox[k]
    ensures forall k :: k in downUp && k !in checkbox && k !in session && k != clickKey ==> r[k] == downUp[k]
    ensures forall k :: (k in movement && k !in downUp && k !in checkbox && k !in session && k != clickKey) ==>
      r[k] == movement[k]
  {
    movement + downUp + checkbox + session + map[clickKey := clicks]
  }

  /** `FeatureEngineer.__call__`, in the source's order. */
  function Engineer(cfg: EngineerConfig, g: Geometry, data: RawData): (r: FeatureMap)
    ensures r.Keys == MovementPart(cfg, g, data).Keys + {cfg.downOutputKey} + CheckboxPart(cfg, g, data).Keys +
      {cfg.sessionOutputKey, cfg.clickKey}
    ensures r[cfg.clickKey] == Events(ListOr(data, cfg.clickKey))
  {
    Merge(MovementPart(cfg, g, data), DownUpPart(cfg, data), CheckboxPart(cfg, g, data), SessionPart(cfg, data),
          cfg.clickKey, Events(ListOr(data, cfg.clickKey)))
  }

  /** With the shipped names, the record holds the movement features, the press/move flag,
      the session time and the click list, plus the checkbox pair when that processor kept
      its result, and nothing else: no keyboard feature in particular. */
  lemma KeysOfDefault(g: Geometry, data: RawData, angleKey: string, rowAngleKey: string, rowConsistencyKey: string)
    requires angleKey == "overall_session_angle_std"
    ensures
      var cfg := DefaultConfig(angleKey, rowAngleKey, rowConsistencyKey);
      var base := {"mouse_movement_stddev_velocity", "mouse_movement_avg_velocity", "pixel_per_movement",
                   "mouse_movement_count", "mouse_down_up_features", "session_time", "mouse_clicks"};
      var r := Engineer(cfg, g, data);
      base <= r.Keys && r.Keys <= base + {angleKey, "is_valid", "between_path"}
  {
  }

  /** The names the checkbox pair can collide with. */
  function OtherKeys(cfg: EngineerConfig): set<string> {
    {cfg.velocityStdKey, cfg.velocityAvgKey, cfg.pixelKey, cfg.countKey, cfg.angleKey,
     cfg.downOutputKey, cfg.sessionOutputKey, cfg.clickKey}
  }

  /** A record with no clicks has no checkbox pair, so the main line's path analyzer finds
      no validity feature (and scores 1.0); the click list is echoed as empty. */
  lemma NoClicksNoCheckboxPair(cfg: EngineerConfig, g: Geometry, data: RawData)
    requires ListOr(data, cfg.checkboxClickKey) == [] && cfg.clickKey == cfg.checkboxClickKey
    requires cfg.validKey !in OtherKeys(cfg) && cfg.mainKey !in OtherKeys(cfg)
    ensures
      var r := Engineer(cfg, g, data);
      cfg.validKey !in r && cfg.mainKey !in r && r[cfg.clickKey] == Events([])
  {
    assert CheckboxPart(cfg, g, data) == map[];
  }

  /** The shipped names keep the checkbox pair apart from every other feature. */
  lemma DefaultKeysApart(angleKey: string, rowAngleKey: string, rowConsistencyKey: string)
    requires angleKey !in {"is_valid", "between_path"}
    ensures
      var cfg := DefaultConfig(angleKey, rowAngleKey, rowConsistencyKey);
      cfg.validKey !in OtherKeys(cfg) && cfg.mainKey !in OtherKeys(cfg) && cfg.clickKey == cfg.checkboxClickKey
  {
  }

  /** The press/move flag reaches the record unchanged, and it is 0 or 1. */
  lemma DownUpFlagKept(cfg: EngineerConfig, g: Geometry, data: RawData)
    requires cfg.downOutputKey !in {cfg.validKey, cfg.mainKey, cfg.sessionOutputKey, cfg.clickKey}
    ensures
      var r := Engineer(cfg, g, data);
      r[cfg.downOutputKey] == Num(0.0) || r[cfg.downOutputKey] == Num(1.0)
  {
  }

  /** The session time is the last processor's feature and is overridden only by the
      click echo. */
  lemma SessionTimeKept(cfg: EngineerConfig, g: Geometry, data: RawData)
    requires cfg.sessionOutputKey != cfg.clickKey
    ensures Engineer(cfg, g, data)[cfg.sessionOutputKey] == Num(Session.Duration(ListOr(data, cfg.sessionKey)))
  {
  }
}
