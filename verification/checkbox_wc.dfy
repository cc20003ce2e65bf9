/**
 Interval segmentation of the word-challenge variant (`CheckboxEventProcessor` of
 `rt_wc_score`). There is no script matching: all recorded clicks, sorted by time, cut
 the movement trace into windows. Each window yields a row (angular consistency,
 straightness, mean turning angle as a fraction of pi).

 The linearity computation returns a pair instead of a triple for a short or closed
 window; the caller unpacks it into three names, and the `ValueError` that raises drops
 the whole result.
 */
module CheckboxEventsWc {
  import opened Records
  import opened Geometry
  import opened Paths

  datatype PathRow = PathRow(consistency: real, straightness: real, avgAngle: real)

  /** The row of a window without any movement. */
  const EmptyRow := PathRow(1.0, 1.0, 0.0)

  /** Fewest samples for which the linearity is computed. */
  const MinPathPoints := 5

  /** Fewest recorded clicks for which the windows are cut. */
  const MinClicks := 3

  type Outcome = Paths.Outcome<PathRow>

  /** `_calculate_path_linearity`: `None` for the pair-returning branches (fewer than five
      points, or a closed path). Otherwise every interior point contributes an angle. */
  function Linearity(g: Geometry, ps: seq<Point>): (r: Option<PathRow>)
    ensures r.None? <==> |ps| < MinPathPoints || ps[0] == ps[|ps| - 1]
    ensures r.Some? ==> r.value.consistency + r.value.avgAngle == 1.0
    ensures r.Some? ==> r.value.avgAngle == Mean(AllTurns(g, ps)) / Pi
    ensures Lawful(g) && Triangle(g) && r.Some? ==> 0.0 < r.value.straightness <= 1.0
    ensures TurnInRange(g) && r.Some? ==> 0.0 <= r.value.consistency <= 1.0 && 0.0 <= r.value.avgAngle <= 1.0
  {
    if |ps| < MinPathPoints then None
    else if ps[0] == ps[|ps| - 1] then None
    else
      var turns := AllTurns(g, ps);
      var m := Mean(turns) / Pi;
      var row := PathRow(1.0 - m, Straightness(g, ps), m);
      assert Lawful(g) && Triangle(g) ==> 0.0 < row.straightness <= 1.0 by {
        if Lawful(g) && Triangle(g) {
          StraightnessInRange(g, ps);
        }
      }
      assert TurnInRange(g) ==> 0.0 <= m <= 1.0 by {
        if TurnInRange(g) {
          AllTurnsInRange(g, ps);
          MeanTurnNormalised(turns);
        }
      }
      Some(row)
  }

  /** A non-empty window whose linearity comes back as a pair: too short, or closed. */
  predicate YieldsPair(w: seq<Sample>) {
    0 < |w| && (|w| < MinPathPoints || w[0].pos == w[|w| - 1].pos)
  }

  /** The row of the window `[t1, t2]`. */
  function IntervalRow(g: Geometry, ms: seq<Sample>, t1: int, t2: int): (r: Option<PathRow>)
    ensures (forall i :: 0 <= i < |ms| ==> !(t1 <= ms[i].t <= t2)) ==> r == Some(EmptyRow)
    ensures r.None? <==> YieldsPair(Window(ms, t1, t2))
  {
    var w := Window(ms, t1, t2);
    if |w| == 0 then Some(EmptyRow) else Linearity(g, Positions(w))
  }

  /** `_process_checkbox_sequence`: the clicks are sorted by parsed time first (a null
      click or an unparseable timestamp raises even when there are too few clicks). */
  function ProcessSequence(g: Geometry, clicks: seq<Record>, movements: seq<Record>): (r: Outcome)
    ensures !AllParse(clicks) ==> r == Dropped
    ensures AllParse(clicks) && |clicks| < MinClicks ==> r == Features(false, [])
    ensures |clicks| >= MinClicks && !AllParse(movements) ==> r == Dropped
    ensures r.Features? ==> (r.valid <==> |r.rows| > 0)
    ensures r.Features? && r.valid ==> |r.rows| == |clicks| - 1
  {
    match Parse(clicks)
    case None => Dropped
    case Some(cs) =>
      var sorted := SortByTime(cs);
      if |sorted| < MinClicks then Features(false, [])
      else
        match Parse(movements)
        case None => Dropped
        case Some(ms) =>
          match IntervalRows((t1, t2) => IntervalRow(g, ms, t1, t2), Times(sorted))
          case None => Dropped
          case Some(rows) => Features(|rows| > 0, rows)
  }

  /** `CheckboxEventProcessor.__call__`: no clicks gives `{}`. */
  function Checkbox(g: Geometry, clicks: seq<Record>, movements: seq<Record>): (r: Outcome)
    ensures |clicks| == 0 ==> r == Dropped
    ensures |clicks| > 0 ==> r == ProcessSequence(g, clicks, movements)
  {
    if |clicks| == 0 then Dropped else ProcessSequence(g, clicks, movements)
  }

  /** A window holding between one and four movements drops the whole result, however
      well-formed every other window is. */
  lemma ShortWindowDrops(g: Geometry, clicks: seq<Record>, movements: seq<Record>, k: int)
    requires AllParse(clicks) && AllParse(movements) && |clicks| >= MinClicks
    requires 0 <= k < |clicks| - 1
    requires
      var ts := Times(SortByTime(Parse(clicks).value));
      0 < |Window(Parse(movements).value, ts[k], ts[k + 1])| < MinPathPoints
    ensures Checkbox(g, clicks, movements) == Dropped
  {
    var ts := Times(SortByTime(Parse(clicks).value));
    var ms := Parse(movements).value;
    assert IntervalRow(g, ms, ts[k], ts[k + 1]).None?;
  }

  /** Every row of a valid result keeps angular consistency and mean angle
      complementary. */
  lemma RowsComplementary(g: Geometry, clicks: seq<Record>, movements: seq<Record>)
    requires Checkbox(g, clicks, movements).Features?
    ensures forall i :: 0 <= i < |Checkbox(g, clicks, movements).rows| ==>
      Checkbox(g, clicks, movements).rows[i].consistency + Checkbox(g, clicks, movements).rows[i].avgAngle == 1.0
  {
    var rows := Checkbox(g, clicks, movements).rows;
    if |rows| > 0 {
      assert AllParse(clicks) && |clicks| >= MinClicks && AllParse(movements);
      var ts := Times(SortByTime(Parse(clicks).value));
      var ms := Parse(movements).value;
      forall i | 0 <= i < |rows| ensures rows[i].consistency + rows[i].avgAngle == 1.0 {
        assert IntervalRow(g, ms, ts[i], ts[i + 1]) == Some(rows[i]);
      }
    }
  }
}
