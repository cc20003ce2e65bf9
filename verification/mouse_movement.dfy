/**
 Movement kinematics of the main line (`MouseMovementProcessor`): velocity statistics
 over the time-sorted trace, movement density (path length per recorded movement), the
 spread of heading angles and the raw movement count. Distance, heading spread and
 standard deviation are the uninterpreted operations of `Geometry`; what is modelled is
 the structure around them: the gates, the pairing of consecutive samples, the zero-time
 rule and the error paths.
 */
module MouseMovement {
  import opened Records
  import opened Geometry
  import Sorting

  /** `min_movements_required`: the value of the word-challenge configuration (the main
      line's movement configuration is not part of this model). */
  const DefaultFloor := 10

  /** The movement features; `angleStd` is `None` when the key is absent (the error
      dictionary omits it). */
  datatype MovementFeatures = MovementFeatures(
    velocityStd: real,
    velocityAvg: real,
    pixelPerMovement: real,
    count: nat,
    angleStd: Option<real>)

  /** The dictionary returned when an exception escapes. */
  const ErrorFeatures := MovementFeatures(0.0, 0.0, 0.0, 0, None)

  /** Velocity between two consecutive samples, in pixels per second: zero when no time
      elapsed (`np.divide(..., where=dt != 0)` over a zero-filled output). */
  function StepVelocity(g: Geometry, a: Sample, b: Sample): (v: real)
    ensures b.t == a.t ==> v == 0.0
    ensures b.t != a.t ==> v * ((b.t - a.t) as real / MicrosPerSecond) == g.dist(a.pos, b.pos)
    ensures Lawful(g) && b.t > a.t ==> v >= 0.0
  {
    var dt := (b.t - a.t) as real / MicrosPerSecond;
    if b.t != a.t then g.dist(a.pos, b.pos) / dt else 0.0
  }

  /** One velocity per pair of consecutive samples. */
  function Velocities(g: Geometry, ss: seq<Sample>): (vs: seq<real>)
    ensures |ss| > 0 ==> |vs| == |ss| - 1
    ensures |ss| == 0 ==> vs == []
    ensures forall i :: 0 <= i < |vs| ==> vs[i] == StepVelocity(g, ss[i], ss[i + 1])
  {
    if |ss| < 2 then []
    else
      assert forall i :: 1 <= i < |ss| ==> ss[1..][i - 1] == ss[i];
      [StepVelocity(g, ss[0], ss[1])] + Velocities(g, ss[1..])
  }

  /** On a time-sorted trace no velocity is negative. */
  lemma VelocitiesNonNegative(g: Geometry, ss: seq<Sample>)
    requires Lawful(g) && Sorting.SortedBy(ss, Time)
    ensures forall i :: 0 <= i < |Velocities(g, ss)| ==> Velocities(g, ss)[i] >= 0.0
  {
    var vs := Velocities(g, ss);
    forall i | 0 <= i < |vs| ensures vs[i] >= 0.0 {
      assert Time(ss[i]) <= Time(ss[i + 1]);
    }
  }

  /** `_compute_velocity`: `None` for no movements or fewer non-null ones than the
      floor; `[]` when a timestamp does not parse (the exception is caught there). */
  function ComputeVelocity(g: Geometry, rs: seq<Record>, floor: int): (r: Option<seq<real>>)
    ensures r.None? <==> |rs| == 0 || |NonNull(rs)| < floor
    ensures r.Some? && !AllParse(NonNull(rs)) ==> r.value == []
    ensures r.Some? && AllParse(NonNull(rs)) && |NonNull(rs)| > 0 ==> |r.value| == |NonNull(rs)| - 1
    ensures Lawful(g) && r.Some? ==> forall i :: 0 <= i < |r.value| ==> r.value[i] >= 0.0
  {
    if |rs| == 0 then None
    else
      var valid := NonNull(rs);
      if |valid| < floor then None
      else
        match Parse(valid)
        case None => Some([])
        case Some(ss) =>
          var sorted := SortByTime(ss);
          assert Lawful(g) ==> forall i :: 0 <= i < |Velocities(g, sorted)| ==> Velocities(g, sorted)[i] >= 0.0 by {
            if Lawful(g) {
              VelocitiesNonNegative(g, sorted);
            }
          }
          Some(Velocities(g, sorted))
  }

  /** `np.std(velocities) if velocities else 0`, and likewise for the average. */
  function VelocityStd(g: Geometry, vs: Option<seq<real>>): real {
    if vs.Some? && |vs.value| > 0 then g.std(vs.value) else 0.0
  }

  function VelocityAvg(vs: Option<seq<real>>): (a: real)
    ensures (vs.None? || vs.value == []) ==> a == 0.0
    ensures vs.Some? && (forall i :: 0 <= i < |vs.value| ==> vs.value[i] >= 0.0) ==> a >= 0.0
  {
    if vs.Some? && |vs.value| > 0 then
      assert (forall i :: 0 <= i < |vs.value| ==> vs.value[i] >= 0.0) ==> Mean(vs.value) >= 0.0 by {
        if forall i :: 0 <= i < |vs.value| ==> vs.value[i] >= 0.0 {
          NonNegativeSum(vs.value);
        }
      }
      Mean(vs.value)
    else 0.0
  }

  lemma {:induction false} NonNegativeSum(xs: seq<real>)
    requires forall i :: 0 <= i < |xs| ==> xs[i] >= 0.0
    ensures Sum(xs) >= 0.0
  {
    if |xs| > 0 {
      NonNegativeSum(xs[1..]);
    }
  }

  /** `detect_bot_movements`: 0 for no movements or when there are at least as many clicks
      as movements; otherwise the movements are sorted by time (which raises, as `None`,
      on a null entry or an unparseable timestamp) and the travelled distance is divided
      by the number of movements. */
  function Density(g: Geometry, mm: seq<Record>, clickCount: nat): (r: Option<real>)
    ensures |mm| == 0 || clickCount >= |mm| ==> r == Some(0.0)
    ensures r.None? <==> |mm| > 0 && clickCount < |mm| && !AllParse(mm)
    ensures Lawful(g) && r.Some? ==> r.value >= 0.0
  {
    if |mm| == 0 || clickCount >= |mm| then Some(0.0)
    else
      match Parse(mm)
      case None => None
      case Some(ss) =>
        var ps := Positions(SortByTime(ss));
        assert Lawful(g) ==> PathLength(g, ps) >= 0.0 by {
          if Lawful(g) {
            PathLengthZeroIffStatic(g, ps);
          }
        }
        Some(PathLength(g, ps) / |mm| as real)
  }

  /** Sorting a trace that stays at one point gives a static path. */
  lemma SortedStaticTrace(ss: seq<Sample>, p: Point)
    requires forall k :: 0 <= k < |ss| ==> ss[k].pos == p
    ensures Static(Positions(SortByTime(ss)))
  {
    var sorted := SortByTime(ss);
    var ps := Positions(sorted);
    forall i | 0 <= i < |ps| ensures ps[i] == p {
      Sorting.SameMembers(sorted, ss, sorted[i]);
      var k :| 0 <= k < |ss| && ss[k] == sorted[i];
    }
  }

  /** A trace that never leaves one point has density 0. */
  lemma StaticTraceDensityZero(g: Geometry, mm: seq<Record>, clickCount: nat, p: Point)
    requires Lawful(g)
    requires forall i :: 0 <= i < |mm| ==> mm[i].Some? && mm[i].value.pos == p
    ensures Density(g, mm, clickCount).Some? ==> Density(g, mm, clickCount).value == 0.0
  {
    if |mm| > 0 && clickCount < |mm| && AllParse(mm) {
      var ss := Parse(mm).value;
      assert forall k :: 0 <= k < |ss| ==> ss[k].pos == p by {
        forall k | 0 <= k < |ss| ensures ss[k].pos == p {
          assert ss[k] == ToSample(mm[k]);
        }
      }
      SortedStaticTrace(ss, p);
      PathLengthZeroIffStatic(g, Positions(SortByTime(ss)));
    }
  }

  /** `_get_angle_std`: 0 for no movements, for fewer non-null ones than the floor, and
      when a timestamp does not parse; otherwise the heading spread of the sorted trace. */
  function AngleStd(g: Geometry, rs: seq<Record>, floor: int): (a: real)
    ensures |rs| == 0 || |NonNull(rs)| < floor || !AllParse(NonNull(rs)) ==> a == 0.0
  {
    if |rs| == 0 then 0.0
    else
      var valid := NonNull(rs);
      if |valid| < floor then 0.0
      else
        match Parse(valid)
        case None => 0.0
        case Some(ss) => g.headingStd(Positions(SortByTime(ss)))
  }

  /** `MouseMovementProcessor.__call__` on the movement and click lists. */
  function Movement(g: Geometry, mm: seq<Record>, clicks: seq<Record>, floor: int): (r: MovementFeatures)
    ensures r.angleStd.None? <==> |mm| > 0 && |clicks| < |mm| && !AllParse(mm)
    ensures r.angleStd.None? ==> r == ErrorFeatures
    ensures r.angleStd.Some? ==> r.count == |mm|
    ensures r.angleStd.Some? && (|mm| == 0 || |NonNull(mm)| < floor) ==> r.velocityStd == 0.0 && r.velocityAvg == 0.0
    ensures r.angleStd.Some? && (|mm| == 0 || |clicks| >= |mm|) ==> r.pixelPerMovement == 0.0
    ensures Lawful(g) ==> r.velocityAvg >= 0.0 && r.pixelPerMovement >= 0.0
  {
    var vs := ComputeVelocity(g, mm, floor);
    match Density(g, mm, |clicks|)
    case None => ErrorFeatures
    case Some(px) => MovementFeatures(VelocityStd(g, vs), VelocityAvg(vs), px, |mm|, Some(AngleStd(g, mm, floor)))
  }
}
