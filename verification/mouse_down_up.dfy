/**
 Press/move corroboration (`MouseDownUpProcessor`): every mouse press is paired with the
 last movement recorded strictly before it, found with `bisect_left` on the sorted
 movement times; when no movement precedes the press, index `-1` wraps round to the
 latest movement. The fraction of presses whose paired movement lies outside a small box
 around the press becomes a 0/1 flag: 0 only when every press is corroborated.
 */
module MouseDownUp {
  import opened Records
  import Geometry
  import Sorting

  /** `within_tolerance` of the configuration. */
  const DefaultTolerance := 2

  /** `is_within_range`: the movement lies in the closed box of half-width `tol` around
      the press. */
  predicate WithinRange(press: Point, move: Point, tol: int) {
    press.x - tol <= move.x <= press.x + tol && press.y - tol <= move.y <= press.y + tol
  }

  /** The box test is the per-axis tolerance test of the click matcher. */
  lemma WithinRangeIsBox(press: Point, move: Point, tol: int)
    ensures WithinRange(press, move, tol) <==> InBox(move, press, tol)
  {
  }

  /** Python's `bisect.bisect_left(ts, x, lo, hi)`, step for step. */
  function BisectLeft(ts: seq<int>, x: int, lo: int, hi: int): (k: int)
    requires 0 <= lo <= hi <= |ts|
    ensures lo <= k <= hi
    decreases hi - lo
  {
    if lo < hi then
      var mid := (lo + hi) / 2;
      if ts[mid] < x then BisectLeft(ts, x, mid + 1, hi) else BisectLeft(ts, x, lo, mid)
    else lo
  }

  /** On a sorted list, `bisect_left` splits it into the times before `x` and the rest. */
  lemma {:induction false} BisectLeftSplits(ts: seq<int>, x: int, lo: int, hi: int)
    requires Sorting.SortedBy(ts, Id)
    requires 0 <= lo <= hi <= |ts|
    requires forall i :: 0 <= i < lo ==> ts[i] < x
    requires forall i :: hi <= i < |ts| ==> ts[i] >= x
    ensures forall i :: 0 <= i < BisectLeft(ts, x, lo, hi) ==> ts[i] < x
    ensures forall i :: BisectLeft(ts, x, lo, hi) <= i < |ts| ==> ts[i] >= x
    decreases hi - lo
  {
    if lo < hi {
      var mid := (lo + hi) / 2;
      if ts[mid] < x {
        forall i | 0 <= i < mid + 1 ensures ts[i] < x {
          assert Id(ts[i]) <= Id(ts[mid]);
        }
        BisectLeftSplits(ts, x, mid + 1, hi);
      } else {
        forall i | mid <= i < |ts| ensures ts[i] >= x {
          assert Id(ts[mid]) <= Id(ts[i]);
        }
        BisectLeftSplits(ts, x, lo, mid);
      }
    }
  }

  function Id(t: int): int {
    t
  }

  /** Python's `xs[i]` for `-len(xs) <= i < len(xs)`: a negative index counts from the end. */
  function PyIndex(n: int, i: int): (k: nat)
    requires -n <= i < n
    ensures k < n
    ensures i >= 0 ==> k == i
    ensures i < 0 ==> k == n + i
  {
    if i < 0 then n + i else i
  }

  /** Index of the movement paired with a press at time `t`: `data[bisect_left(...) - 1]`. */
  function PairIndex(ms: seq<Sample>, t: int): (j: nat)
    requires |ms| > 0
    ensures j < |ms|
  {
    var ts := Times(ms);
    PyIndex(|ms|, BisectLeft(ts, t, 0, |ts|) - 1)
  }

  /** Reference definition of the pairing on time-sorted movements: the last movement
      strictly before the press, or the latest movement when none precedes it. */
  ghost predicate IsPairIndex(ms: seq<Sample>, t: int, j: int) {
    0 <= j < |ms| &&
    if ms[0].t < t then ms[j].t < t && (j + 1 < |ms| ==> ms[j + 1].t >= t)
    else j == |ms| - 1
  }

  lemma PairIndexIsLastBefore(ms: seq<Sample>, t: int)
    requires |ms| > 0 && Sorting.SortedBy(ms, Time)
    ensures IsPairIndex(ms, t, PairIndex(ms, t))
  {
    var ts := Times(ms);
    assert Sorting.SortedBy(ts, Id) by {
      forall i, j | 0 <= i < j < |ts| ensures Id(ts[i]) <= Id(ts[j]) {
        assert Time(ms[i]) <= Time(ms[j]);
      }
    }
    BisectLeftSplits(ts, t, 0, |ts|);
  }

  /** The press is corroborated: its paired movement lies in the box around it. */
  predicate Corroborated(ms: seq<Sample>, press: Sample, tol: int)
    requires |ms| > 0
  {
    WithinRange(press.pos, ms[PairIndex(ms, press.t)].pos, tol)
  }

  /** The number of presses that are not corroborated. */
  function Mismatches(ds: seq<Sample>, ms: seq<Sample>, tol: int): (m: nat)
    requires |ms| > 0
    ensures m <= |ds|
    ensures m == 0 <==> forall i :: 0 <= i < |ds| ==> Corroborated(ms, ds[i], tol)
  {
    if |ds| == 0 then 0
    else
      assert forall i :: 1 <= i < |ds| ==> ds[1..][i - 1] == ds[i];
      (if Corroborated(ms, ds[0], tol) then 0 else 1) + Mismatches(ds[1..], ms, tol)
  }

  /** `find_first_gte_multiple`: the fraction of presses not corroborated. `None` for the
      `ZeroDivisionError` of no presses and the `IndexError` of no movements. */
  function MismatchRatio(ds: seq<Sample>, ms: seq<Sample>, tol: int): (r: Option<real>)
    ensures r.None? <==> |ds| == 0 || |ms| == 0
    ensures r.Some? ==> 0.0 <= r.value <= 1.0
    ensures r.Some? ==> (r.value == 0.0 <==> forall i :: 0 <= i < |ds| ==> Corroborated(ms, ds[i], tol))
  {
    if |ds| == 0 || |ms| == 0 then None
    else
      var m := Mismatches(ds, ms, tol);
      Geometry.RatioInUnit(m as real, |ds| as real);
      Some(m as real / |ds| as real)
  }

  /** `MouseDownUpProcessor.__call__` on the press and movement lists (each `[]` when
      absent): both are sorted by time, which raises on a null entry or an unparseable
      timestamp; every exception gives 1, and a positive ratio is rounded up to 1. */
  function Flag(downs: seq<Record>, moves: seq<Record>, tol: int): (r: int)
    ensures r == 0 || r == 1
  {
    match (Parse(downs), Parse(moves))
    case (Some(ds), Some(ms)) =>
      (match MismatchRatio(SortByTime(ds), SortByTime(ms), tol)
       case None => 1
       case Some(q) => if q > 0.0 then 1 else 0)
    case _ => 1
  }

  /** Every press of the input is corroborated by the sorted movement trace. */
  ghost predicate AllCorroborated(downs: seq<Record>, moves: seq<Record>, tol: int)
    requires AllParse(downs) && AllParse(moves) && |moves| > 0
  {
    forall i :: 0 <= i < |downs| ==> Corroborated(SortByTime(Parse(moves).value), ToSample(downs[i]), tol)
  }

  /** Whether every press is corroborated does not depend on the order of the presses. */
  lemma AllCorroboratedPermutation(a: seq<Sample>, b: seq<Sample>, ms: seq<Sample>, tol: int)
    requires multiset(a) == multiset(b) && |ms| > 0
    ensures (forall i :: 0 <= i < |a| ==> Corroborated(ms, a[i], tol)) <==>
            (forall i :: 0 <= i < |b| ==> Corroborated(ms, b[i], tol))
  {
    if forall i :: 0 <= i < |a| ==> Corroborated(ms, a[i], tol) {
      forall i | 0 <= i < |b| ensures Corroborated(ms, b[i], tol) {
        Sorting.SameMembers(a, b, b[i]);
        var k :| 0 <= k < |a| && a[k] == b[i];
      }
    }
    if forall i :: 0 <= i < |b| ==> Corroborated(ms, b[i], tol) {
      forall i | 0 <= i < |a| ensures Corroborated(ms, a[i], tol) {
        Sorting.SameMembers(a, b, a[i]);
        var k :| 0 <= k < |b| && b[k] == a[i];
      }
    }
  }

  /** The flag is 0 exactly when both lists are non-empty and readable and every press is
      corroborated. */
  lemma FlagZeroIff(downs: seq<Record>, moves: seq<Record>, tol: int)
    ensures Flag(downs, moves, tol) == 0 <==>
      AllParse(downs) && AllParse(moves) && |downs| > 0 && |moves| > 0 && AllCorroborated(downs, moves, tol)
  {
    if AllParse(downs) && AllParse(moves) && |downs| > 0 && |moves| > 0 {
      var ds := Parse(downs).value;
      var sm := SortByTime(Parse(moves).value);
      AllCorroboratedPermutation(SortByTime(ds), ds, sm, tol);
      assert (forall i :: 0 <= i < |ds| ==> Corroborated(sm, ds[i], tol)) <==> AllCorroborated(downs, moves, tol) by {
        assert forall i :: 0 <= i < |ds| ==> ds[i] == ToSample(downs[i]);
      }
    }
  }

  /** The flag does not depend on the order the presses were recorded in. */
  lemma PressOrderIndependent(a: seq<Record>, b: seq<Record>, moves: seq<Record>, tol: int)
    requires multiset(a) == multiset(b)
    ensures Flag(a, moves, tol) == Flag(b, moves, tol)
  {
    FlagZeroIff(a, moves, tol);
    FlagZeroIff(b, moves, tol);
    AllParsePermutation(a, b);
    if AllParse(a) && AllParse(b) && AllParse(moves) && |moves| > 0 {
      assert |a| == |b| by {
        assert |multiset(a)| == |multiset(b)|;
      }
      if AllCorroborated(a, moves, tol) {
        forall i | 0 <= i < |b| ensures Corroborated(SortByTime(Parse(moves).value), ToSample(b[i]), tol) {
          Sorting.SameMembers(a, b, b[i]);
          var k :| 0 <= k < |a| && a[k] == b[i];
        }
      }
      if AllCorroborated(b, moves, tol) {
        forall i | 0 <= i < |a| ensures Corroborated(SortByTime(Parse(moves).value), ToSample(a[i]), tol) {
          Sorting.SameMembers(a, b, a[i]);
          var k :| 0 <= k < |b| && b[k] == a[i];
        }
      }
    }
  }

  /** A press that precedes every movement is compared with the latest movement, not the
      earliest. */
  lemma EarlyPressWrapsToLatest()
    ensures PairIndex([Sample(Point(0, 0), 10), Sample(Point(50, 50), 20)], 5) == 1
  {
  }
}
