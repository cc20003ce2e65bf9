/**
 Click compliance (`ArgCompare`): does every scripted click target have a recorded
 click inside its tolerance box? The answer is 0 (non-compliant, or the input could
 not be read), 1 (compliant), or Python's `None` when the script has no click target
 at all. Despite its log message, the check does not enforce script order and does not
 use a recorded click up.
 */
module ArgCompare {
  import opened Records
  import opened ClickMatch
  import opened Features
  import Sorting

  datatype CompareConfig = CompareConfig(
    kind: string,         // action type that counts as a click target
    tolerance: int,       // pixels, per axis
    clicksKey: string,    // feature holding the recorded clicks
    actions: seq<Action>)

  const DefaultConfig := CompareConfig("click", 15, "mouse_clicks", [Action("1", "click", Point(100, 200))])

  /** Some recorded click (in any position of the list) lies in the target's box. */
  ghost predicate Recorded(clicks: seq<Record>, target: Point, tol: int) {
    exists j :: 0 <= j < |clicks| && clicks[j].Some? && InBox(clicks[j].value.pos, target, tol)
  }

  /** Every target has a recorded click in its box. */
  ghost predicate Covered(targets: seq<Point>, clicks: seq<Record>, tol: int) {
    forall i :: 0 <= i < |targets| ==> Recorded(clicks, targets[i], tol)
  }

  /** A target has a match among the time-sorted samples exactly when some recorded click
      is in its box. */
  lemma SortedMatchIffRecorded(clicks: seq<Record>, target: Point, tol: int)
    requires AllParse(clicks)
    ensures HasWithin(SortByTime(Parse(clicks).value), SamplePos, target, tol) <==> Recorded(clicks, target, tol)
  {
    var ss := Parse(clicks).value;
    HasWithinPermutation(SortByTime(ss), ss, SamplePos, target, tol);
    if HasWithin(ss, SamplePos, target, tol) {
      var j :| 0 <= j < |ss| && InBox(SamplePos(ss[j]), target, tol);
      assert clicks[j].Some? && InBox(clicks[j].value.pos, target, tol);
    }
    if Recorded(clicks, target, tol) {
      var j :| 0 <= j < |clicks| && clicks[j].Some? && InBox(clicks[j].value.pos, target, tol);
      assert InBox(SamplePos(ss[j]), target, tol);
    }
  }

  /** `_check_clicks` together with the exception handler of `__call__`: a null click or
      an unparseable timestamp makes the sort raise, which yields 0. */
  function CheckClicks(cfg: CompareConfig, clicks: seq<Record>): (r: Option<int>)
    ensures r == None || r == Some(0) || r == Some(1)
    ensures r.None? <==> AllParse(clicks) && |Targets(cfg.actions, cfg.kind)| == 0
    ensures r == Some(1) <==>
      AllParse(clicks) && |Targets(cfg.actions, cfg.kind)| > 0 && Covered(Targets(cfg.actions, cfg.kind), clicks, cfg.tolerance)
  {
    match Parse(clicks)
    case None => Some(0)
    case Some(samples) =>
      var sorted := SortByTime(samples);
      var targets := Targets(cfg.actions, cfg.kind);
      var within := Within(sorted, SamplePos, targets, cfg.tolerance);
      assert |within| == |targets| <==> Covered(targets, clicks, cfg.tolerance) by {
        forall i | 0 <= i < |targets| {
          SortedMatchIffRecorded(clicks, targets[i], cfg.tolerance);
        }
      }
      if |within| != |targets| then Some(0)
      else if !(forall i :: 0 <= i < |within| ==> InBox(within[i].pos, targets[i], cfg.tolerance)) then
        Some(0)   // "wrong order": unreachable, see RecheckCannotFail
      else if |targets| > 0 then Some(1)
      else None   // the function falls off its end
  }

  /** `ArgCompare.__call__` on a feature record: the clicks are `data.get(key, [])`; a
      value that is not a list of events makes `sorted` raise, which yields 0 (an empty
      list of interval rows sorts like an empty list). */
  function Compare(cfg: CompareConfig, f: FeatureMap): (r: Option<int>)
    ensures cfg.clicksKey !in f ==> r == CheckClicks(cfg, [])
    ensures cfg.clicksKey in f && f[cfg.clicksKey].Events? ==> r == CheckClicks(cfg, f[cfg.clicksKey].rs)
    ensures cfg.clicksKey in f && IsNumber(f[cfg.clicksKey]) ==> r == Some(0)
  {
    match Get(f, cfg.clicksKey)
    case None => CheckClicks(cfg, [])
    case Some(Events(rs)) => CheckClicks(cfg, rs)
    case Some(Rows(rows)) => if |rows| == 0 then CheckClicks(cfg, []) else Some(0)
    case Some(_) => Some(0)
  }

  /** With at least one target, a missing or empty click list is non-compliant. */
  lemma NoClicksFails(cfg: CompareConfig)
    requires |Targets(cfg.actions, cfg.kind)| > 0
    ensures CheckClicks(cfg, []) == Some(0)
  {
    var targets := Targets(cfg.actions, cfg.kind);
    assert !Recorded([], targets[0], cfg.tolerance);
  }

  /** The verdict depends only on which clicks were recorded, not on their order:
      permuting the click list (for instance swapping their times) changes nothing. */
  lemma OrderIndependent(cfg: CompareConfig, a: seq<Record>, b: seq<Record>)
    requires multiset(a) == multiset(b)
    ensures CheckClicks(cfg, a) == CheckClicks(cfg, b)
  {
    AllParsePermutation(a, b);
    var targets := Targets(cfg.actions, cfg.kind);
    var tol := cfg.tolerance;
    forall target | true ensures Recorded(a, target, tol) <==> Recorded(b, target, tol) {
      if Recorded(a, target, tol) {
        var j :| 0 <= j < |a| && a[j].Some? && InBox(a[j].value.pos, target, tol);
        Sorting.SameMembers(a, b, a[j]);
        var k :| 0 <= k < |b| && b[k] == a[j];
      }
      if Recorded(b, target, tol) {
        var j :| 0 <= j < |b| && b[j].Some? && InBox(b[j].value.pos, target, tol);
        Sorting.SameMembers(a, b, b[j]);
        var k :| 0 <= k < |a| && a[k] == b[j];
      }
    }
    assert Covered(targets, a, tol) <==> Covered(targets, b, tol);
  }

  /** One recorded click inside two overlapping boxes satisfies both targets. */
  lemma OneClickServesTwoTargets()
    ensures CheckClicks(
      CompareConfig("click", 2, "mouse_clicks", [Action("1", "click", Point(10, 10)), Action("2", "click", Point(13, 13))]),
      [Some(Event(Point(11, 12), Stamp(0, Some(0))))]) == Some(1)
  {
    var cfg := CompareConfig("click", 2, "mouse_clicks", [Action("1", "click", Point(10, 10)), Action("2", "click", Point(13, 13))]);
    var clicks: seq<Record> := [Some(Event(Point(11, 12), Stamp(0, Some(0))))];
    var targets := Targets(cfg.actions, cfg.kind);
    assert targets == [Point(10, 10), Point(13, 13)];
    assert Recorded(clicks, targets[0], 2) && Recorded(clicks, targets[1], 2) by {
      assert InBox(clicks[0].value.pos, targets[0], 2) && InBox(clicks[0].value.pos, targets[1], 2);
    }
    assert Covered(targets, clicks, 2);
  }

  /** Clicking the two targets in the reverse of script order still complies. */
  lemma ScriptOrderNotEnforced()
    ensures CheckClicks(
      CompareConfig("click", 15, "mouse_clicks", [Action("1", "click", Point(0, 0)), Action("2", "click", Point(100, 100))]),
      [Some(Event(Point(100, 100), Stamp(0, Some(1)))), Some(Event(Point(0, 0), Stamp(1, Some(2))))]) == Some(1)
  {
    var cfg := CompareConfig("click", 15, "mouse_clicks", [Action("1", "click", Point(0, 0)), Action("2", "click", Point(100, 100))]);
    var clicks: seq<Record> := [Some(Event(Point(100, 100), Stamp(0, Some(1)))), Some(Event(Point(0, 0), Stamp(1, Some(2))))];
    var targets := Targets(cfg.actions, cfg.kind);
    assert targets == [Point(0, 0), Point(100, 100)];
    assert Recorded(clicks, targets[0], 15) && Recorded(clicks, targets[1], 15) by {
      assert InBox(clicks[1].value.pos, targets[0], 15) && InBox(clicks[0].value.pos, targets[1], 15);
    }
    assert Covered(targets, clicks, 15);
  }
}
