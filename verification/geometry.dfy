/**
 Floating-point geometry and statistics the scorer applies to pointer paths.
 Euclidean distance, the turning angle (arc-cosine of the clamped cosine between two
 displacement vectors), the standard deviation of heading angles (`atan2(y, x)` in
 degrees) and the standard deviation of a list of reals are left uninterpreted: they
 are fields of a `Geometry` value that the caller supplies. Sums and means are plain
 arithmetic and are defined here.
 */
module Geometry {
  import opened Records

  /** `math.pi` / `np.pi` as a double. */
  const Pi: real := 3.141592653589793

  datatype Geometry = Geometry(
    dist: (Point, Point) -> real,
    turn: (Point, Point, Point) -> real,
    headingStd: seq<Point> -> real,
    std: seq<real> -> real)

  /** What Euclidean distance promises and the model relies on: it is never negative and
      is zero exactly between equal points (for integer points a distance below 1e-10 is a
      distance of zero). */
  ghost predicate Lawful(g: Geometry) {
    forall p, q :: g.dist(p, q) >= 0.0 && (g.dist(p, q) == 0.0 <==> p == q)
  }

  /** The triangle inequality, needed only to bound straightness by 1. */
  ghost predicate Triangle(g: Geometry) {
    forall p, q, r {:trigger g.dist(p, q), g.dist(q, r)} :: g.dist(p, r) <= g.dist(p, q) + g.dist(q, r)
  }

  /** The turning angle is an arc-cosine, so it lies in [0, pi]. */
  ghost predicate TurnInRange(g: Geometry) {
    forall a, b, c :: 0.0 <= g.turn(a, b, c) <= Pi
  }

  /** A part over a positive whole lies in [0, 1], and is positive with the part. */
  lemma RatioInUnit(a: real, b: real)
    requires 0.0 <= a <= b && 0.0 < b
    ensures 0.0 <= a / b <= 1.0
    ensures a > 0.0 ==> a / b > 0.0
  {
    var q := a / b;
    assert q * b == a;
    if q > 1.0 {
      calc {
        a;
      ==
        q * b;
      >
        1.0 * b;
      ==
        b;
      }
    }
  }

  function Sum(xs: seq<real>): real {
    if |xs| == 0 then 0.0 else xs[0] + Sum(xs[1..])
  }

  function Mean(xs: seq<real>): real
    requires |xs| > 0
  {
    Sum(xs) / (|xs| as real)
  }

  /** Sum of the distances between consecutive points. */
  function PathLength(g: Geometry, ps: seq<Point>): real {
    if |ps| < 2 then 0.0 else g.dist(ps[0], ps[1]) + PathLength(g, ps[1..])
  }

  /** Every point equals its successor. */
  predicate Static(ps: seq<Point>) {
    forall i :: 0 <= i < |ps| - 1 ==> ps[i] == ps[i + 1]
  }

  /** A lawful distance makes the path length zero exactly for a static path, and
      never negative. */
  lemma {:induction false} PathLengthZeroIffStatic(g: Geometry, ps: seq<Point>)
    requires Lawful(g)
    ensures PathLength(g, ps) >= 0.0
    ensures PathLength(g, ps) == 0.0 <==> Static(ps)
  {
    if |ps| >= 2 {
      PathLengthZeroIffStatic(g, ps[1..]);
      assert g.dist(ps[0], ps[1]) >= 0.0;
      assert Static(ps) <==> ps[0] == ps[1] && Static(ps[1..]) by {
        if ps[0] == ps[1] && Static(ps[1..]) {
          forall i | 0 <= i < |ps| - 1 ensures ps[i] == ps[i + 1] {
            if i > 0 { assert ps[1..][i - 1] == ps[i]; }
          }
        }
        if Static(ps) {
          forall i | 0 <= i < |ps[1..]| - 1 ensures ps[1..][i] == ps[1..][i + 1] {
            assert ps[i + 1] == ps[i + 2];
          }
        }
      }
    }
  }

  /** The chord between the ends of a path is no longer than the path. */
  lemma {:induction false} ChordAtMostPath(g: Geometry, ps: seq<Point>)
    requires Lawful(g) && Triangle(g) && |ps| >= 1
    ensures g.dist(ps[0], ps[|ps| - 1]) <= PathLength(g, ps)
  {
    if |ps| == 1 {
      assert g.dist(ps[0], ps[0]) == 0.0;
    } else {
      ChordAtMostPath(g, ps[1..]);
      assert ps[1..][|ps[1..]| - 1] == ps[|ps| - 1];
      assert g.dist(ps[0], ps[|ps| - 1]) <= g.dist(ps[0], ps[1]) + g.dist(ps[1], ps[|ps| - 1]);
    }
  }
}
