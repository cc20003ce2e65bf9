/**
 Checkbox-path analyzers (`CheckboxPathSequence`, main line and word-challenge variant).
 Each interval row of the feature record is either skipped (a sentinel value, or a
 missing feature) or scored as a weighted sum of three clamped scores; the result is
 the largest such sum, capped at 1. In the word-challenge variant the counter of
 analyzed rows is never incremented, so a valid record always yields 1.
 */
module CheckboxPath {
  import opened Records
  import opened Features
  import opened Scoring

  type Row = map<string, real>

  /** `row.get(key)`. */
  function Field(row: Row, key: string): Option<real> {
    if key in row then Some(row[key]) else None
  }

  /** Keys, sentinel values and weights of the main line's configuration. */
  datatype PathConfig = PathConfig(
    validKey: string, mainKey: string,
    angleKey: string, straightKey: string, consistencyKey: string,
    botStraightness: real, botAngle: real, botConsistency: real,
    angleWeight: real, straightWeight: real, consistencyWeight: real)

  const DefaultConfig := PathConfig(
    "is_valid", "between_path",
    "angle_std", "straightness", "angular_consistency",
    1.0, 0.0, 1.0,
    0.4, 0.2, 0.4)

  const AngleRule := Rule(0.1, 16.8335, 0.9, 0.7, 0.91, 1.18)
  const StraightRule := Rule(0.6048, 0.99086, 0.6, 0.9, 0.8211, 1.00922431)
  const ConsistencyRule := Rule(0.84455, 0.9781, 0.8, 0.5, 0.9472, 1.02239035)

  /** A row carrying a value that marks a bot outright. Its `max_suspicion_score == 1`
      is a comparison, not an assignment: the row is only skipped. */
  predicate Sentinel(cfg: PathConfig, row: Row) {
    Field(row, cfg.straightKey) == Some(cfg.botStraightness) ||
    Field(row, cfg.angleKey) == Some(cfg.botAngle) ||
    Field(row, cfg.consistencyKey) == Some(cfg.botConsistency)
  }

  /** A row that is scored: no sentinel, all three features present. */
  predicate Analyzed(cfg: PathConfig, row: Row) {
    !Sentinel(cfg, row) && cfg.angleKey in row && cfg.straightKey in row && cfg.consistencyKey in row
  }

  /** The weighted sum of the three clamped scores of an analyzed row. */
  function PairScore(cfg: PathConfig, s: Scorer, row: Row): real
    requires Analyzed(cfg, row)
  {
    cfg.angleWeight * s.clamp(s.score(row[cfg.angleKey], AngleRule)) +
    cfg.straightWeight * s.clamp(s.score(row[cfg.straightKey], StraightRule)) +
    cfg.consistencyWeight * s.clamp(s.score(row[cfg.consistencyKey], ConsistencyRule))
  }

  function Max(a: real, b: real): real {
    if a >= b then a else b
  }

  function Min(a: real, b: real): real {
    if a <= b then a else b
  }

  /** The loop over the rows: the running maximum (from 0.0) and the number of analyzed
      rows. */
  function Scan(cfg: PathConfig, s: Scorer, rows: seq<Row>): (r: (real, nat))
    ensures r.0 >= 0.0
    ensures r.1 == 0 <==> forall i :: 0 <= i < |rows| ==> !Analyzed(cfg, rows[i])
    ensures forall i :: 0 <= i < |rows| && Analyzed(cfg, rows[i]) ==> PairScore(cfg, s, rows[i]) <= r.0
    ensures r.0 == 0.0 || exists i :: 0 <= i < |rows| && Analyzed(cfg, rows[i]) && PairScore(cfg, s, rows[i]) == r.0
  {
    if |rows| == 0 then (0.0, 0)
    else
      var front := rows[..|rows| - 1];
      var last := rows[|rows| - 1];
      var (best, count) := Scan(cfg, s, front);
      assert forall i :: 0 <= i < |front| ==> front[i] == rows[i];
      if Analyzed(cfg, last) then (Max(best, PairScore(cfg, s, last)), count + 1)
      else (best, count)
  }

  /** Two row lists holding the same rows scan to the same maximum, and both or neither
      analyze a row. */
  lemma ScanPermutation(cfg: PathConfig, s: Scorer, a: seq<Row>, b: seq<Row>)
    requires multiset(a) == multiset(b)
    ensures Scan(cfg, s, a).0 == Scan(cfg, s, b).0
    ensures Scan(cfg, s, a).1 == 0 <==> Scan(cfg, s, b).1 == 0
  {
    BestAtMost(cfg, s, a, b);
    BestAtMost(cfg, s, b, a);
    forall i | 0 <= i < |a| && Analyzed(cfg, a[i]) ensures exists j :: 0 <= j < |b| && Analyzed(cfg, b[j]) {
      var j := InOther(a, b, i);
    }
    forall i | 0 <= i < |b| && Analyzed(cfg, b[i]) ensures exists j :: 0 <= j < |a| && Analyzed(cfg, a[j]) {
      var j := InOther(b, a, i);
    }
  }

  lemma BestAtMost(cfg: PathConfig, s: Scorer, a: seq<Row>, b: seq<Row>)
    requires multiset(a) == multiset(b)
    ensures Scan(cfg, s, a).0 <= Scan(cfg, s, b).0
  {
    var best := Scan(cfg, s, a).0;
    if best != 0.0 {
      var i :| 0 <= i < |a| && Analyzed(cfg, a[i]) && PairScore(cfg, s, a[i]) == best;
      var j := InOther(a, b, i);
    }
  }

  /** An element of one list is somewhere in a permutation of it. */
  lemma InOther<T>(a: seq<T>, b: seq<T>, i: int) returns (j: int)
    requires multiset(a) == multiset(b) && 0 <= i < |a|
    ensures 0 <= j < |b| && b[j] == a[i]
  {
    assert a[i] in multiset(b);
    j :| 0 <= j < |b| && b[j] == a[i];
  }

  /** `CheckboxPathSequence.__call__` of the main line. A missing row list, a value that
      is not a list, or a null entry in a list of events raise: 0.0. A list of events
      without nulls has none of the row features, so every entry is skipped: 1.0. */
  function PathScoreHb(cfg: PathConfig, s: Scorer, f: FeatureMap): (r: real)
    ensures !(cfg.validKey in f && Truthy(f[cfg.validKey])) ==> r == 1.0
    ensures 0.0 <= r <= 1.0
    ensures cfg.validKey in f && Truthy(f[cfg.validKey]) && cfg.mainKey !in f ==> r == 0.0
    ensures cfg.validKey in f && Truthy(f[cfg.validKey]) && cfg.mainKey in f && IsNumber(f[cfg.mainKey]) ==> r == 0.0
    ensures cfg.validKey in f && Truthy(f[cfg.validKey]) && cfg.mainKey in f && f[cfg.mainKey].Events? ==>
      (r == 0.0 <==> exists i :: 0 <= i < |f[cfg.mainKey].rs| && f[cfg.mainKey].rs[i].None?) &&
      (r == 0.0 || r == 1.0)
    ensures cfg.validKey in f && Truthy(f[cfg.validKey]) && cfg.mainKey in f && f[cfg.mainKey].Rows? ==>
      var rows := f[cfg.mainKey].rows;
      ((forall i :: 0 <= i < |rows| ==> !Analyzed(cfg, rows[i])) ==> r == 1.0) &&
      (forall i :: 0 <= i < |rows| && Analyzed(cfg, rows[i]) ==> Min(1.0, PairScore(cfg, s, rows[i])) <= r)
  {
    match Get(f, cfg.validKey)
    case None => 1.0
    case Some(v) =>
      if !Truthy(v) then 1.0
      else
        match Get(f, cfg.mainKey)
        case None => 0.0
        case Some(Rows(rows)) =>
          var (best, count) := Scan(cfg, s, rows);
          if count == 0 then 1.0 else Min(1.0, best)
        case Some(Events(rs)) => if forall i :: 0 <= i < |rs| ==> rs[i].Some? then 1.0 else 0.0
        case Some(_) => 0.0
  }

  /** When some row is analyzed, the result is one of the analyzed rows' capped sums (or
      0 when all of them are below 0). */
  lemma PathScoreHbAttained(cfg: PathConfig, s: Scorer, f: FeatureMap)
    requires cfg.validKey in f && Truthy(f[cfg.validKey]) && cfg.mainKey in f && f[cfg.mainKey].Rows?
    requires exists i :: 0 <= i < |f[cfg.mainKey].rows| && Analyzed(cfg, f[cfg.mainKey].rows[i])
    ensures PathScoreHb(cfg, s, f) == 0.0 ||
      exists i :: 0 <= i < |f[cfg.mainKey].rows| && Analyzed(cfg, f[cfg.mainKey].rows[i]) &&
        PathScoreHb(cfg, s, f) == Min(1.0, PairScore(cfg, s, f[cfg.mainKey].rows[i]))
  {
    var rows := f[cfg.mainKey].rows;
    var best := Scan(cfg, s, rows).0;
    if best != 0.0 {
      var i :| 0 <= i < |rows| && Analyzed(cfg, rows[i]) && PairScore(cfg, s, rows[i]) == best;
      assert PathScoreHb(cfg, s, f) == Min(1.0, PairScore(cfg, s, rows[i]));
    }
  }

  /** The order of the interval rows does not matter. */
  lemma RowOrderIndependent(cfg: PathConfig, s: Scorer, f: FeatureMap, a: seq<Row>, b: seq<Row>)
    requires multiset(a) == multiset(b)
    ensures PathScoreHb(cfg, s, f[cfg.mainKey := Rows(a)]) == PathScoreHb(cfg, s, f[cfg.mainKey := Rows(b)])
  {
    ScanPermutation(cfg, s, a, b);
  }

  /** A sentinel row never changes the result, however suspicious its value. */
  lemma SentinelRowIgnored(cfg: PathConfig, s: Scorer, rows: seq<Row>, row: Row)
    requires Sentinel(cfg, row)
    ensures Scan(cfg, s, rows + [row]) == Scan(cfg, s, rows)
  {
    assert (rows + [row])[..|rows|] == rows;
  }

  /** Keys and sentinel values of the word-challenge variant (its configuration is not
      part of this model, so the names are parameters); the record keys are literal. */
  datatype WcConfig = WcConfig(
    avgAngleKey: string, consistencyKey: string, straightKey: string,
    botStraightness: real, botConsistency: real, botAvgAngle: real,
    consistencyWeight: real, straightWeight: real, avgAngleWeight: real,
    consistencyRule: Rule, straightRule: Rule, avgAngleRule: Rule)

  predicate SentinelWc(cfg: WcConfig, row: Row) {
    Field(row, cfg.straightKey) == Some(cfg.botStraightness) ||
    Field(row, cfg.consistencyKey) == Some(cfg.botConsistency) ||
    Field(row, cfg.avgAngleKey) == Some(cfg.botAvgAngle)
  }

  predicate AnalyzedWc(cfg: WcConfig, row: Row) {
    !SentinelWc(cfg, row) && cfg.avgAngleKey in row && cfg.consistencyKey in row && cfg.straightKey in row
  }

  /** The running maximum of the word-challenge loop; it never reaches the output. */
  function ScanWc(cfg: WcConfig, s: Scorer, rows: seq<Row>): real {
    if |rows| == 0 then 0.0
    else
      var best := ScanWc(cfg, s, rows[..|rows| - 1]);
      var row := rows[|rows| - 1];
      if AnalyzedWc(cfg, row) then
        Max(best,
          cfg.consistencyWeight * s.clamp(s.score(row[cfg.consistencyKey], cfg.consistencyRule)) +
          cfg.straightWeight * s.clamp(s.score(row[cfg.straightKey], cfg.straightRule)) +
          cfg.avgAngleWeight * s.clamp(s.score(row[cfg.avgAngleKey], cfg.avgAngleRule)))
      else best
  }

  /** `CheckboxPathSequence.__call__` of the word-challenge variant: `pairs_analyzed`
      stays 0, so past the validity test only an exception (0.0) escapes the 1.0. */
  function PathScoreWc(cfg: WcConfig, s: Scorer, f: FeatureMap): (r: real)
    ensures r == 0.0 || r == 1.0
    ensures !("is_valid" in f && Truthy(f["is_valid"])) ==> r == 1.0
    ensures "checkbox" in f && f["checkbox"].Rows? ==> r == 1.0
    ensures r == 0.0 <==> (
      "is_valid" in f && Truthy(f["is_valid"]) &&
      ("checkbox" !in f || IsNumber(f["checkbox"]) ||
       (f["checkbox"].Events? && exists i :: 0 <= i < |f["checkbox"].rs| && f["checkbox"].rs[i].None?)))
  {
    var pairsAnalyzed := 0;
    match Get(f, "is_valid")
    case None => 1.0
    case Some(v) =>
      if !Truthy(v) then 1.0
      else
        match Get(f, "checkbox")
        case None => 0.0
        case Some(Rows(rows)) =>
          var best := ScanWc(cfg, s, rows);
          if pairsAnalyzed == 0 then 1.0 else Min(1.0, best)
        case Some(Events(rs)) => if forall i :: 0 <= i < |rs| ==> rs[i].Some? then 1.0 else 0.0
        case Some(_) => 0.0
  }
}
