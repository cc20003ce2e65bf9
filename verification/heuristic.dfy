/**
 The final aggregation (`HeuristicAnalyzer`): the weighted average of the mouse-event
 score table, exported as `1 - average`. An entry that scores 0 counts with weight 0.5
 whatever its configured weight, and a table whose weights add up to 0 averages to 0.
 */
module Heuristic {
  import opened Records
  import opened Features
  import opened Scoring
  import opened ScoreTable
  import Geometry
  import ArgCompare
  import MouseEvents

  /** One entry as the aggregation reads it: `score` and `weight` may be absent. */
  datatype Slot = Slot(score: Option<real>, weight: Option<real>)

  /** The entries of a table, in its order, with both fields present. */
  function Slots(t: Table<real>): (r: seq<Slot>)
    ensures |r| == |t|
    ensures forall i :: 0 <= i < |t| ==> r[i] == Slot(Some(t[i].score), Some(t[i].weight))
  {
    if |t| == 0 then [] else [Slot(Some(t[0].score), Some(t[0].weight))] + Slots(t[1..])
  }

  /** The score the loop uses: absent reads as 0. */
  function ScoreOf(x: Slot): real {
    x.score.GetOr(0.0)
  }

  /** The weight the loop uses: absent reads as 0, and a zero score forces 0.5. */
  function WeightOf(x: Slot): (w: real)
    ensures ScoreOf(x) == 0.0 ==> w == 0.5
    ensures ScoreOf(x) != 0.0 ==> w == x.weight.GetOr(0.0)
  {
    if ScoreOf(x) == 0.0 then 0.5 else x.weight.GetOr(0.0)
  }

  function Product(x: Slot): real {
    ScoreOf(x) * WeightOf(x)
  }

  /** The running sum of the loop, in table order. */
  function SumOf(xs: seq<Slot>, f: Slot -> real): real {
    if |xs| == 0 then 0.0 else SumOf(xs[..|xs| - 1], f) + f(xs[|xs| - 1])
  }

  /** `_calculate_final_score`. */
  function FinalScore(xs: seq<Slot>): (r: real)
    ensures SumOf(xs, WeightOf) == 0.0 ==> r == 0.0
    ensures SumOf(xs, WeightOf) != 0.0 ==> r * SumOf(xs, WeightOf) == SumOf(xs, Product)
  {
    var tw := SumOf(xs, WeightOf);
    if tw == 0.0 then 0.0 else SumOf(xs, Product) / tw
  }

  /** `HeuristicAnalyzer.__call__`: one minus the average (rounding to five places is not
      modelled). An empty table, or one whose weights add up to 0, exports 1; with scores
      in [0, 1] and non-negative weights the export is in [0, 1]. */
  function Export(t: Table<real>): (r: real)
    ensures SumOf(Slots(t), WeightOf) == 0.0 ==> r == 1.0
    ensures |t| == 0 ==> r == 1.0
    ensures WellScaled(Slots(t)) ==> 0.0 <= r <= 1.0
  {
    var xs := Slots(t);
    assert WellScaled(xs) ==> 0.0 <= FinalScore(xs) <= 1.0 by {
      if WellScaled(xs) {
        FinalScoreInUnit(xs);
      }
    }
    1.0 - FinalScore(xs)
  }

  /** Scores in [0, 1] and non-negative weights. */
  predicate WellScaled(xs: seq<Slot>) {
    forall i :: 0 <= i < |xs| ==> 0.0 <= ScoreOf(xs[i]) <= 1.0 && 0.0 <= xs[i].weight.GetOr(0.0)
  }

  lemma {:induction false} SumsBounded(xs: seq<Slot>)
    requires WellScaled(xs)
    ensures 0.0 <= SumOf(xs, Product) <= SumOf(xs, WeightOf)
    ensures 0.0 <= SumOf(xs, WeightOf)
  {
    if |xs| > 0 {
      var front := xs[..|xs| - 1];
      var x := xs[|xs| - 1];
      assert WellScaled(front) by {
        forall i | 0 <= i < |front| ensures 0.0 <= ScoreOf(front[i]) <= 1.0 && 0.0 <= front[i].weight.GetOr(0.0) {
          assert front[i] == xs[i];
        }
      }
      SumsBounded(front);
      var s, w := ScoreOf(x), WeightOf(x);
      assert SumOf(xs, Product) == SumOf(front, Product) + Product(x);
      assert SumOf(xs, WeightOf) == SumOf(front, WeightOf) + w;
      assert Product(x) == s * w;
      assert 0.0 <= w;
      assert 0.0 <= s * w <= w by {
        assert s * w <= 1.0 * w;
      }
    }
  }

  /** With scores in [0, 1] and non-negative weights the average is in [0, 1]. */
  lemma FinalScoreInUnit(xs: seq<Slot>)
    requires WellScaled(xs)
    ensures 0.0 <= FinalScore(xs) <= 1.0
  {
    SumsBounded(xs);
    var tw := SumOf(xs, WeightOf);
    if tw != 0.0 {
      Geometry.RatioInUnit(SumOf(xs, Product), tw);
    }
  }

  /** A total weight of 0 means that no entry scored 0 (that entry would weigh 0.5). */
  lemma {:induction false} ZeroTotalHasNoZeroScore(xs: seq<Slot>)
    requires forall i :: 0 <= i < |xs| ==> 0.0 <= xs[i].weight.GetOr(0.0)
    ensures SumOf(xs, WeightOf) >= 0.0
    ensures SumOf(xs, WeightOf) == 0.0 ==> forall i :: 0 <= i < |xs| ==> ScoreOf(xs[i]) != 0.0
  {
    if |xs| > 0 {
      var front := xs[..|xs| - 1];
      assert forall i :: 0 <= i < |front| ==> front[i] == xs[i];
      ZeroTotalHasNoZeroScore(front);
    }
  }

  lemma {:induction false} SumOfAppend(a: seq<Slot>, b: seq<Slot>, f: Slot -> real)
    ensures SumOf(a + b, f) == SumOf(a, f) + SumOf(b, f)
    decreases |b|
  {
    if |b| > 0 {
      assert (a + b)[..|a + b| - 1] == a + b[..|b| - 1];
      SumOfAppend(a, b[..|b| - 1], f);
    } else {
      assert a + b == a;
    }
  }

  /** The sums do not depend on the order of the entries. */
  lemma {:induction false} SumOfPermutation(a: seq<Slot>, b: seq<Slot>, f: Slot -> real)
    requires multiset(a) == multiset(b)
    ensures SumOf(a, f) == SumOf(b, f)
    decreases |a|
  {
    assert |a| == |b| by {
      assert |multiset(a)| == |multiset(b)|;
    }
    if |a| > 0 {
      var front := a[..|a| - 1];
      var x := a[|a| - 1];
      assert a == front + [x];
      assert x in multiset(b);
      var j :| 0 <= j < |b| && b[j] == x;
      var rest := b[..j] + b[j + 1..];
      assert b == b[..j] + [x] + b[j + 1..];
      assert multiset(front) == multiset(rest) by {
        assert multiset(a) == multiset(front) + multiset{x};
        assert multiset(b) == multiset(b[..j]) + multiset{x} + multiset(b[j + 1..]);
        assert multiset(rest) == multiset(b[..j]) + multiset(b[j + 1..]);
        assert multiset(front) == multiset(a) - multiset{x};
        assert multiset(rest) == multiset(b) - multiset{x};
      }
      SumOfPermutation(front, rest, f);
      SumOfAppend(b[..j] + [x], b[j + 1..], f);
      SumOfAppend(b[..j], [x], f);
      SumOfAppend(b[..j], b[j + 1..], f);
      SumOfAppend(front, [x], f);
      assert SumOf([x], f) == f(x) by {
        assert [x][..0] == [];
      }
    }
  }

  /** The average is the same in any order of the entries. */
  lemma FinalScoreOrderIndependent(a: seq<Slot>, b: seq<Slot>)
    requires multiset(a) == multiset(b)
    ensures FinalScore(a) == FinalScore(b)
  {
    SumOfPermutation(a, b, WeightOf);
    SumOfPermutation(a, b, Product);
  }

  /** The single-entry table of a gate exports 0. */
  lemma SingleEntryExportsZero(name: string)
    ensures Export([Entry(name, 1.0, 1.0)]) == 0.0
  {
    var xs := Slots([Entry(name, 1.0, 1.0)]);
    assert xs == [Slot(Some(1.0), Some(1.0))];
    assert xs[..0] == [];
    assert SumOf(xs, WeightOf) == 1.0;
    assert SumOf(xs, Product) == 1.0;
  }

  /** Gate dominance end to end: a compliance verdict of 0 exports 0, whatever else the
      feature record holds. */
  lemma NonCompliantExportsZero(cfg: MouseEvents.HbConfig, s: Scorer, velocity: map<string, real>,
                                path: map<string, real>, f: FeatureMap)
    requires ArgCompare.Compare(cfg.compare, f) == Some(0)
    ensures Export(MouseEvents.MouseEventsHb(cfg, s, velocity, path, f)) == 0.0
  {
    SingleEntryExportsZero(MouseEvents.BotBehavior);
  }
}
