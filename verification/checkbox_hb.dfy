/**
 Interval segmentation of the main line (`CheckboxEventProcessor`): the recorded click
 matched to every scripted click target gives one timestamp; consecutive timestamps cut
 the movement trace into windows; each window yields a row of path features
 (heading-angle spread, straightness, angular consistency).

 Two details of the source shape the model. The recorded clicks are sorted by their raw
 timestamp string, not by the instant it denotes, and so are the matched timestamps;
 only the window bounds are parsed. And the row keys for the heading-angle spread and
 the angular consistency are read from configuration attributes the shipped
 configuration does not declare; the model takes them as given key names (see the
 feature engineer).
 */
module CheckboxEventsHb {
  import opened Records
  import opened Geometry
  import opened ClickMatch
  import opened Paths
  import Sorting

  datatype CheckboxConfig = CheckboxConfig(
    kind: string,        // action type that counts as a click target
    tolerance: int,      // pixels, per axis
    actions: seq<Action>)

  const DefaultConfig := CheckboxConfig("click", 15, [Action("1", "click", Point(100, 200))])

  /** The path features of one interval. */
  datatype PathRow = PathRow(angleStd: real, straightness: real, consistency: real)

  /** The row of an interval too short to measure, and of a closed path. */
  const Linear := PathRow(1.0, 1.0, 1.0)

  /** Fewest samples for which the linearity is computed. */
  const MinPathPoints := 5

  type Outcome = Paths.Outcome<PathRow>

  function RawKey(e: Event): int {
    e.stamp.raw
  }

  function EventPos(e: Event): Point {
    e.pos
  }

  function StampRaw(s: Stamp): int {
    s.raw
  }

  function StampsOf(es: seq<Event>): (ss: seq<Stamp>)
    ensures |ss| == |es|
    ensures forall i :: 0 <= i < |es| ==> ss[i] == es[i].stamp
  {
    if |es| == 0 then [] else [es[0].stamp] + StampsOf(es[1..])
  }

  /** `_get_timestamps`, returning the matched clicks themselves: for every click target
      in script order, the first recorded click in raw-timestamp order inside the
      target's box; `None` (the source's `0`) when a target has no such click. */
  function MatchedClicks(cfg: CheckboxConfig, clicks: seq<Event>): (r: Option<seq<Event>>)
    ensures r.Some? <==> AllReached(clicks, Targets(cfg.actions, cfg.kind), cfg.tolerance)
    ensures r.Some? ==> |r.value| == |Targets(cfg.actions, cfg.kind)|
    ensures r.Some? ==> forall i :: 0 <= i < |r.value| ==>
      r.value[i] in clicks && InBox(r.value[i].pos, Targets(cfg.actions, cfg.kind)[i], cfg.tolerance)
    ensures r.Some? ==> forall i, j ::
      (0 <= i < |r.value| && 0 <= j < |clicks| && InBox(clicks[j].pos, Targets(cfg.actions, cfg.kind)[i], cfg.tolerance)) ==>
        r.value[i].stamp.raw <= clicks[j].stamp.raw
  {
    var sorted := Sorting.SortBy(clicks, RawKey);
    var targets := Targets(cfg.actions, cfg.kind);
    var w := Within(sorted, EventPos, targets, cfg.tolerance);
    ReachedIffSorted(clicks, sorted, targets, cfg.tolerance);
    if |w| != |targets| then None
    else
      assert forall i :: 0 <= i < |w| ==> w[i] in clicks && InBox(w[i].pos, targets[i], cfg.tolerance) by {
        forall i | 0 <= i < |w| ensures w[i] in clicks && InBox(w[i].pos, targets[i], cfg.tolerance) {
          assert FirstWithin(sorted, EventPos, targets[i], cfg.tolerance) == Some(w[i]);
          var k := FirstIndex(sorted, EventPos, targets[i], cfg.tolerance);
          Sorting.SameMembers(sorted, clicks, sorted[k]);
        }
      }
      assert forall i, j :: 0 <= i < |w| && 0 <= j < |clicks| && InBox(clicks[j].pos, targets[i], cfg.tolerance) ==>
        w[i].stamp.raw <= clicks[j].stamp.raw by {
        forall i, j | 0 <= i < |w| && 0 <= j < |clicks| && InBox(clicks[j].pos, targets[i], cfg.tolerance)
          ensures w[i].stamp.raw <= clicks[j].stamp.raw
        {
          FirstWithinLeast(sorted, EventPos, targets[i], cfg.tolerance, RawKey);
          Sorting.SameMembers(sorted, clicks, clicks[j]);
          var k :| 0 <= k < |sorted| && sorted[k] == clicks[j];
          assert InBox(EventPos(sorted[k]), targets[i], cfg.tolerance);
        }
      }
      Some(w)
  }

  /** Some click lies in the box around the target. */
  ghost predicate Reached(clicks: seq<Event>, target: Point, tol: int) {
    exists j :: 0 <= j < |clicks| && InBox(clicks[j].pos, target, tol)
  }

  /** Every target is reached. */
  ghost predicate AllReached(clicks: seq<Event>, targets: seq<Point>, tol: int) {
    forall i :: 0 <= i < |targets| ==> Reached(clicks, targets[i], tol)
  }

  /** Every target has a click in its box in the sorted list exactly when it is reached. */
  lemma ReachedIffSorted(clicks: seq<Event>, sorted: seq<Event>, targets: seq<Point>, tol: int)
    requires multiset(sorted) == multiset(clicks)
    ensures (forall i :: 0 <= i < |targets| ==> HasWithin(sorted, EventPos, targets[i], tol)) <==> AllReached(clicks, targets, tol)
  {
    forall i | 0 <= i < |targets|
      ensures HasWithin(sorted, EventPos, targets[i], tol) <==> Reached(clicks, targets[i], tol)
    {
      HasWithinPermutation(sorted, clicks, EventPos, targets[i], tol);
      if Reached(clicks, targets[i], tol) {
        var j :| 0 <= j < |clicks| && InBox(clicks[j].pos, targets[i], tol);
        assert InBox(EventPos(clicks[j]), targets[i], tol);
      }
      if HasWithin(clicks, EventPos, targets[i], tol) {
        var j :| 0 <= j < |clicks| && InBox(EventPos(clicks[j]), targets[i], tol);
        assert InBox(clicks[j].pos, targets[i], tol);
      }
    }
  }

  /** The instants of a list of timestamps; `None` when one does not parse. */
  function Instants(ss: seq<Stamp>): (r: Option<seq<int>>)
    ensures r.Some? <==> forall i :: 0 <= i < |ss| ==> ss[i].parsed.Some?
    ensures r.Some? ==> |r.value| == |ss| && forall i :: 0 <= i < |ss| ==> r.value[i] == ss[i].parsed.value
  {
    if |ss| == 0 then Some([])
    else if ss[0].parsed.None? then None
    else
      match Instants(ss[1..])
      case None => None
      case Some(rest) => Some([ss[0].parsed.value] + rest)
  }

  /** `_calculate_path_linearity` on the points of one time-sorted window. `None` is the
      `UnboundLocalError` raised when a long, open path has no proper turn, so that
      `angle_consistency` was never assigned. */
  function Linearity(g: Geometry, ps: seq<Point>): (r: Option<PathRow>)
    ensures |ps| < MinPathPoints ==> r == Some(Linear)
    ensures |ps| > 0 && ps[0] == ps[|ps| - 1] ==> r == Some(Linear)
    ensures r.None? <==> |ps| >= MinPathPoints && ps[0] != ps[|ps| - 1] && !HasProperTurn(ps)
    ensures r.Some? && r != Some(Linear) ==> r.value.angleStd == g.headingStd(ps)
    ensures Lawful(g) && Triangle(g) && r.Some? ==> 0.0 < r.value.straightness <= 1.0
    ensures TurnInRange(g) && r.Some? ==> 0.0 <= r.value.consistency <= 1.0
  {
    if |ps| < MinPathPoints then Some(Linear)
    else if ps[0] == ps[|ps| - 1] then Some(Linear)
    else
      var turns := ProperTurns(g, ps);
      ProperTurnsEmptyIff(g, ps);
      if |turns| == 0 then None
      else
        var row := PathRow(g.headingStd(ps), Straightness(g, ps), 1.0 - Mean(turns) / Pi);
        assert Lawful(g) && Triangle(g) ==> 0.0 < row.straightness <= 1.0 by {
          if Lawful(g) && Triangle(g) {
            StraightnessInRange(g, ps);
          }
        }
        assert TurnInRange(g) ==> 0.0 <= row.consistency <= 1.0 by {
          if TurnInRange(g) {
            ProperTurnsInRange(g, ps);
            MeanTurnNormalised(turns);
          }
        }
        Some(row)
  }

  /** The row of the interval `[t1, t2]`: the linear row when no movement falls inside. */
  function IntervalRow(g: Geometry, ms: seq<Sample>, t1: int, t2: int): (r: Option<PathRow>)
    ensures (forall i :: 0 <= i < |ms| ==> !(t1 <= ms[i].t <= t2)) ==> r == Some(Linear)
    ensures t1 > t2 ==> r == Some(Linear)
  {
    var w := Window(ms, t1, t2);
    if |w| == 0 then Some(Linear) else Linearity(g, Positions(w))
  }

  /** The intervals between the matched timestamps, sorted as strings: fewer than two
      give no interval (and no parsing); otherwise every bound and every movement is
      parsed, and one failure drops the whole result. */
  function Segment(g: Geometry, stamps: seq<Stamp>, movements: seq<Record>): (r: Outcome)
    ensures |stamps| < 2 ==> r == Features(false, [])
    ensures r.Features? ==> (r.valid <==> |r.rows| > 0)
    ensures r.Features? && |stamps| >= 2 ==> |r.rows| == |stamps| - 1
    ensures |stamps| >= 2 && !AllParse(movements) ==> r == Dropped
  {
    if |stamps| < 2 then Features(false, [])
    else
      match (Instants(stamps), Parse(movements))
      case (Some(ts), Some(ms)) =>
        (match IntervalRows((t1, t2) => IntervalRow(g, ms, t1, t2), ts)
         case None => Dropped
         case Some(rows) => Features(|rows| > 0, rows))
      case _ => Dropped
  }

  /** `_process_checkbox_sequence`. */
  function ProcessSequence(cfg: CheckboxConfig, g: Geometry, clicks: seq<Event>, movements: seq<Record>): (r: Outcome)
    ensures MatchedClicks(cfg, clicks).None? ==> r == Features(false, [])
    ensures r.Features? ==> (r.valid <==> |r.rows| > 0)
    ensures r.Features? && r.valid ==>
      |r.rows| == |cfg.actions| - 1 && forall i :: 0 <= i < |cfg.actions| ==> cfg.actions[i].kind == cfg.kind
  {
    match MatchedClicks(cfg, clicks)
    case None => Features(false, [])
    case Some(m) =>
      var stamps := Sorting.SortBy(StampsOf(m), StampRaw);
      if |stamps| < |cfg.actions| then Features(false, [])
      else
        TargetsCount(cfg.actions, cfg.kind);
        assert |stamps| == |cfg.actions|;
        Segment(g, stamps, movements)
  }

  /** `CheckboxEventProcessor.__call__` on the click and movement lists (each `[]` when
      absent): no clicks, or a null click (the raw-timestamp sort raises on it), gives `{}`. */
  function Checkbox(cfg: CheckboxConfig, g: Geometry, clicks: seq<Record>, movements: seq<Record>): (r: Outcome)
    ensures |clicks| == 0 ==> r == Dropped
    ensures (exists i :: 0 <= i < |clicks| && clicks[i].None?) ==> r == Dropped
    ensures r.Features? ==> (r.valid <==> |r.rows| > 0)
    ensures r.Features? && r.valid ==> |r.rows| == |cfg.actions| - 1
  {
    if |clicks| == 0 then Dropped
    else
      match Present(clicks)
      case None => Dropped
      case Some(es) => ProcessSequence(cfg, g, es, movements)
  }

  /** A click target that no recorded click reaches leaves the result invalid and empty. */
  lemma UnmatchedTargetInvalid(cfg: CheckboxConfig, g: Geometry, clicks: seq<Event>, movements: seq<Record>, i: int)
    requires 0 <= i < |Targets(cfg.actions, cfg.kind)|
    requires forall j :: 0 <= j < |clicks| ==> !InBox(clicks[j].pos, Targets(cfg.actions, cfg.kind)[i], cfg.tolerance)
    ensures ProcessSequence(cfg, g, clicks, movements) == Features(false, [])
  {
    assert !Reached(clicks, Targets(cfg.actions, cfg.kind)[i], cfg.tolerance);
  }

  /** An action of another type in the script can never be matched, so the result is
      never valid: there are fewer matched timestamps than actions. */
  lemma OtherActionInvalidates(cfg: CheckboxConfig, g: Geometry, clicks: seq<Event>, movements: seq<Record>, k: int)
    requires 0 <= k < |cfg.actions| && cfg.actions[k].kind != cfg.kind
    ensures ProcessSequence(cfg, g, clicks, movements).Features? ==> !ProcessSequence(cfg, g, clicks, movements).valid
  {
  }

  /** With one matched click target or none, there is no interval. */
  lemma SingleTargetInvalid(cfg: CheckboxConfig, g: Geometry, clicks: seq<Event>, movements: seq<Record>)
    requires |Targets(cfg.actions, cfg.kind)| < 2
    ensures ProcessSequence(cfg, g, clicks, movements) == Features(false, [])
  {
    match MatchedClicks(cfg, clicks)
    case None =>
    case Some(m) =>
      var stamps := Sorting.SortBy(StampsOf(m), StampRaw);
      assert |stamps| < 2;
  }

  /** A path of five points, open, whose every turn has a zero-length segment: the
      linearity computation raises, and the whole checkbox result is dropped. */
  lemma UnassignedConsistency(g: Geometry)
    ensures Linearity(g, [Point(0, 0), Point(0, 0), Point(0, 0), Point(0, 0), Point(1, 0)]).None?
  {
    var ps := [Point(0, 0), Point(0, 0), Point(0, 0), Point(0, 0), Point(1, 0)];
    forall i | 0 <= i < |ps| ensures !TurnAt(ps, i) {
    }
  }
}
