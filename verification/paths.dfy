/**
 Pieces of the path-linearity computation that both checkbox processors share: the
 movement window between two click instants, the turning angles along a path and the
 straightness ratio.
 */
module Paths {
  import opened Records
  import opened Geometry
  import Sorting

  /** `[m for m in movements if t1 <= m.t <= t2]`: both bounds inclusive, input order kept. */
  function Between(ss: seq<Sample>, t1: int, t2: int): (r: seq<Sample>)
    ensures |r| <= |ss|
    ensures forall i :: 0 <= i < |r| ==> r[i] in ss && t1 <= r[i].t <= t2
    ensures forall i :: 0 <= i < |ss| && t1 <= ss[i].t <= t2 ==> ss[i] in r
  {
    if |ss| == 0 then []
    else (if t1 <= ss[0].t <= t2 then [ss[0]] else []) + Between(ss[1..], t1, t2)
  }

  /** The filter keeps every copy: an in-interval movement occurs in the window as often
      as in the recording, any other movement not at all. */
  lemma {:induction false} BetweenCount(ss: seq<Sample>, t1: int, t2: int, x: Sample)
    ensures multiset(Between(ss, t1, t2))[x] == if t1 <= x.t <= t2 then multiset(ss)[x] else 0
  {
    if |ss| > 0 {
      assert ss == [ss[0]] + ss[1..];
      BetweenCount(ss[1..], t1, t2, x);
    }
  }

  /** The filter keeps order and copies: it distributes over concatenation. */
  lemma {:induction false} BetweenAppend(a: seq<Sample>, b: seq<Sample>, t1: int, t2: int)
    ensures Between(a + b, t1, t2) == Between(a, t1, t2) + Between(b, t1, t2)
  {
    if |a| > 0 {
      var h := if t1 <= a[0].t <= t2 then [a[0]] else [];
      assert (a + b)[0] == a[0] && (a + b)[1..] == a[1..] + b;
      BetweenAppend(a[1..], b, t1, t2);
      assert Between(a + b, t1, t2) == h + (Between(a[1..], t1, t2) + Between(b, t1, t2));
      assert Between(a, t1, t2) == h + Between(a[1..], t1, t2);
    } else {
      assert a + b == b;
    }
  }

  /** The movements of one interval, sorted by time: every in-interval movement as many
      times as it was recorded, and nothing else. */
  function Window(ss: seq<Sample>, t1: int, t2: int): (w: seq<Sample>)
    ensures Sorting.SortedBy(w, Time)
    ensures forall i :: 0 <= i < |w| ==> w[i] in ss && t1 <= w[i].t <= t2
    ensures forall i :: 0 <= i < |ss| && t1 <= ss[i].t <= t2 ==> ss[i] in w
    ensures multiset(w) == multiset(Between(ss, t1, t2))
  {
    var b := Between(ss, t1, t2);
    var w := SortByTime(b);
    assert forall i :: 0 <= i < |w| ==> w[i] in b by {
      forall i | 0 <= i < |w| ensures w[i] in b { Sorting.SameMembers(w, b, w[i]); }
    }
    assert forall i :: 0 <= i < |ss| && t1 <= ss[i].t <= t2 ==> ss[i] in w by {
      forall i | 0 <= i < |ss| && t1 <= ss[i].t <= t2 ensures ss[i] in w { Sorting.SameMembers(w, b, ss[i]); }
    }
    w
  }

  /** The sorted window holds as many copies of each movement as its filter. */
  lemma WindowCount(ss: seq<Sample>, t1: int, t2: int, x: Sample)
    ensures multiset(Window(ss, t1, t2))[x] == if t1 <= x.t <= t2 then multiset(ss)[x] else 0
  {
    BetweenCount(ss, t1, t2, x);
  }

  /** A window whose bounds are reversed holds nothing. */
  lemma ReversedWindowEmpty(ss: seq<Sample>, t1: int, t2: int)
    requires t1 > t2
    ensures Window(ss, t1, t2) == []
  {
  }

  /** Both segments meeting at the middle point have non-zero length (`norms > 0`). */
  predicate ProperTurn(a: Point, b: Point, c: Point) {
    a != b && b != c
  }

  /** Some interior point has two non-degenerate segments. */
  predicate HasProperTurn(ps: seq<Point>) {
    exists i :: 0 <= i < |ps| && TurnAt(ps, i)
  }

  /** The turn at interior point `i + 1` is proper. */
  predicate TurnAt(ps: seq<Point>, i: int) {
    0 <= i < |ps| - 2 && ProperTurn(ps[i], ps[i + 1], ps[i + 2])
  }

  /** The turning angles of the checkbox processor of the main line: one per interior
      point whose two segments are non-degenerate; degenerate turns are skipped. */
  function ProperTurns(g: Geometry, ps: seq<Point>): (angles: seq<real>)
    ensures |ps| >= 2 ==> |angles| <= |ps| - 2
    ensures |ps| < 3 ==> angles == []
  {
    if |ps| < 3 then []
    else (if ProperTurn(ps[0], ps[1], ps[2]) then [g.turn(ps[0], ps[1], ps[2])] else []) + ProperTurns(g, ps[1..])
  }

  /** The turning angles of the word-challenge variant: a degenerate turn contributes 1.0
      instead of being skipped. */
  function AllTurns(g: Geometry, ps: seq<Point>): (angles: seq<real>)
    ensures |ps| >= 2 ==> |angles| == |ps| - 2
    ensures |ps| < 3 ==> angles == []
  {
    if |ps| < 3 then []
    else [if ProperTurn(ps[0], ps[1], ps[2]) then g.turn(ps[0], ps[1], ps[2]) else 1.0] + AllTurns(g, ps[1..])
  }

  /** The main-line turn list is empty exactly when no turn is proper. */
  lemma {:induction false} ProperTurnsEmptyIff(g: Geometry, ps: seq<Point>)
    ensures |ProperTurns(g, ps)| == 0 <==> !HasProperTurn(ps)
  {
    if |ps| >= 3 {
      ProperTurnsEmptyIff(g, ps[1..]);
      HasProperTurnStep(ps);
      assert ProperTurns(g, ps) ==
        (if ProperTurn(ps[0], ps[1], ps[2]) then [g.turn(ps[0], ps[1], ps[2])] else []) + ProperTurns(g, ps[1..]);
    }
  }

  lemma HasProperTurnStep(ps: seq<Point>)
    requires |ps| >= 3
    ensures HasProperTurn(ps) <==> ProperTurn(ps[0], ps[1], ps[2]) || HasProperTurn(ps[1..])
  {
    var tail := ps[1..];
    if HasProperTurn(tail) {
      var i :| 0 <= i < |tail| && TurnAt(tail, i);
      assert TurnAt(ps, i + 1);
    }
    if HasProperTurn(ps) && !ProperTurn(ps[0], ps[1], ps[2]) {
      var i :| 0 <= i < |ps| && TurnAt(ps, i);
      assert TurnAt(tail, i - 1);
    }
    if ProperTurn(ps[0], ps[1], ps[2]) {
      assert TurnAt(ps, 0);
    }
  }

  /** Every listed angle is a turning angle, so lies in [0, pi] when turns do. */
  lemma {:induction false} ProperTurnsInRange(g: Geometry, ps: seq<Point>)
    requires TurnInRange(g)
    ensures forall i :: 0 <= i < |ProperTurns(g, ps)| ==> 0.0 <= ProperTurns(g, ps)[i] <= Pi
  {
    if |ps| >= 3 {
      ProperTurnsInRange(g, ps[1..]);
      assert 0.0 <= g.turn(ps[0], ps[1], ps[2]) <= Pi;
    }
  }

  /** The same for the word-challenge list, whose degenerate turns contribute 1.0. */
  lemma {:induction false} AllTurnsInRange(g: Geometry, ps: seq<Point>)
    requires TurnInRange(g)
    ensures forall i :: 0 <= i < |AllTurns(g, ps)| ==> 0.0 <= AllTurns(g, ps)[i] <= Pi
  {
    if |ps| >= 3 {
      AllTurnsInRange(g, ps[1..]);
      assert 0.0 <= g.turn(ps[0], ps[1], ps[2]) <= Pi;
    }
  }

  /** What a checkbox processor returns: `Dropped` is the empty dictionary `{}` (no clicks,
      or an exception), otherwise the validity flag and one row per interval. */
  datatype Outcome<R> = Dropped | Features(valid: bool, rows: seq<R>)

  /** One row per pair of consecutive instants, each computed by `row`; `None` as soon as
      one interval raises. */
  function IntervalRows<R>(row: (int, int) -> Option<R>, ts: seq<int>): (r: Option<seq<R>>)
    ensures r.Some? <==> forall i :: 0 <= i < |ts| - 1 ==> row(ts[i], ts[i + 1]).Some?
    ensures r.Some? && |ts| > 0 ==> |r.value| == |ts| - 1
    ensures r.Some? ==> forall i :: 0 <= i < |ts| - 1 ==> row(ts[i], ts[i + 1]) == Some(r.value[i])
  {
    if |ts| < 2 then Some([])
    else
      assert forall i :: 1 <= i < |ts| ==> ts[1..][i - 1] == ts[i];
      match row(ts[0], ts[1])
      case None => None
      case Some(first) =>
        match IntervalRows(row, ts[1..])
        case None => None
        case Some(rest) => Some([first] + rest)
  }

  /** Chord over summed segment length, or 1.0 when the path has no length. */
  function Straightness(g: Geometry, ps: seq<Point>): real
    requires |ps| >= 1
  {
    var total := PathLength(g, ps);
    if total > 0.0 then g.dist(ps[0], ps[|ps| - 1]) / total else 1.0
  }

  /** On a path whose ends differ, straightness lies in (0, 1]. */
  lemma StraightnessInRange(g: Geometry, ps: seq<Point>)
    requires Lawful(g) && Triangle(g)
    requires |ps| >= 2 && ps[0] != ps[|ps| - 1]
    ensures 0.0 < Straightness(g, ps) <= 1.0
  {
    PathLengthZeroIffStatic(g, ps);
    ChordAtMostPath(g, ps);
    if Static(ps) {
      StaticEndsEqual(ps, |ps| - 1);
    }
    var chord := g.dist(ps[0], ps[|ps| - 1]);
    var total := PathLength(g, ps);
    assert 0.0 < chord <= total;
    RatioInUnit(chord, total);
  }

  lemma {:induction false} StaticEndsEqual(ps: seq<Point>, k: int)
    requires Static(ps) && 0 <= k < |ps|
    ensures ps[k] == ps[0]
  {
    if k > 0 {
      StaticEndsEqual(ps, k - 1);
    }
  }

  /** Angles that are all within [0, pi] have a mean within [0, pi]; hence
      `1 - mean / pi` and `mean / pi` both lie in [0, 1]. */
  lemma MeanTurnNormalised(angles: seq<real>)
    requires |angles| > 0
    requires forall i :: 0 <= i < |angles| ==> 0.0 <= angles[i] <= Pi
    ensures 0.0 <= Mean(angles) / Pi <= 1.0
    ensures 0.0 <= 1.0 - Mean(angles) / Pi <= 1.0
  {
    SumBounds(angles, 0.0, Pi);
    var n := |angles| as real;
    assert 0.0 <= Sum(angles) <= n * Pi;
    assert Mean(angles) <= Pi by {
      assert Mean(angles) * n == Sum(angles);
    }
  }

  lemma {:induction false} SumBounds(xs: seq<real>, lo: real, hi: real)
    requires forall i :: 0 <= i < |xs| ==> lo <= xs[i] <= hi
    ensures (|xs| as real) * lo <= Sum(xs) <= (|xs| as real) * hi
  {
    if |xs| > 0 {
      SumBounds(xs[1..], lo, hi);
    }
  }
}
