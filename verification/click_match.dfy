/**
 Tolerance matching of recorded clicks against the click targets of the action script,
 shared by the click-compliance check and the checkbox interval segmentation. Both
 take, for every target in script order, the first recorded click (in the order they
 were sorted into) that lies in the target's tolerance box, and collect the clicks found.
 A recorded click is never removed once matched: it stays available for later targets.
 */
module ClickMatch {
  import opened Records
  import Sorting

  /** Locations of the actions of the given type, in script order. */
  function Targets(actions: seq<Action>, kind: string): seq<Point> {
    if |actions| == 0 then []
    else (if actions[0].kind == kind then [actions[0].location] else []) + Targets(actions[1..], kind)
  }

  /** Target selection is a filter that keeps script order: the targets of a
      concatenation are the concatenation of the targets. */
  lemma {:induction false} TargetsAppend(a: seq<Action>, b: seq<Action>, kind: string)
    ensures Targets(a + b, kind) == Targets(a, kind) + Targets(b, kind)
  {
    if |a| == 0 {
      assert a + b == b;
    } else {
      var h := if a[0].kind == kind then [a[0].location] else [];
      assert (a + b)[0] == a[0] && (a + b)[1..] == a[1..] + b;
      TargetsAppend(a[1..], b, kind);
      assert Targets(a + b, kind) == h + (Targets(a[1..], kind) + Targets(b, kind));
      assert Targets(a, kind) == h + Targets(a[1..], kind);
    }
  }

  /** Actions of another type never produce a target. */
  lemma {:induction false} OtherTypesIgnored(actions: seq<Action>, kind: string)
    requires forall i :: 0 <= i < |actions| ==> actions[i].kind != kind
    ensures Targets(actions, kind) == []
  {
    if |actions| > 0 {
      OtherTypesIgnored(actions[1..], kind);
    }
  }

  /** There are never more targets than actions, and as many exactly when every action
      has the target type. */
  lemma {:induction false} TargetsCount(actions: seq<Action>, kind: string)
    ensures |Targets(actions, kind)| <= |actions|
    ensures |Targets(actions, kind)| == |actions| <==> forall i :: 0 <= i < |actions| ==> actions[i].kind == kind
  {
    if |actions| > 0 {
      TargetsCount(actions[1..], kind);
      if forall i :: 0 <= i < |actions[1..]| ==> actions[1..][i].kind == kind {
        if actions[0].kind == kind {
          forall i | 0 <= i < |actions| ensures actions[i].kind == kind {
            if i > 0 { assert actions[1..][i - 1] == actions[i]; }
          }
        }
      } else {
        var i :| 0 <= i < |actions[1..]| && actions[1..][i].kind != kind;
        assert actions[i + 1].kind != kind;
      }
    }
  }

  /** Some element of `xs` lies in the tolerance box around `target`. */
  ghost predicate HasWithin<T>(xs: seq<T>, pos: T -> Point, target: Point, tol: int) {
    exists j :: 0 <= j < |xs| && InBox(pos(xs[j]), target, tol)
  }

  /** Index of the first element in the box, or `|xs|` when there is none. */
  function FirstIndex<T>(xs: seq<T>, pos: T -> Point, target: Point, tol: int): (k: nat)
    ensures k <= |xs|
    ensures k < |xs| ==> InBox(pos(xs[k]), target, tol)
    ensures forall j :: 0 <= j < k ==> !InBox(pos(xs[j]), target, tol)
  {
    if |xs| == 0 then 0
    else if InBox(pos(xs[0]), target, tol) then 0
    else 1 + FirstIndex(xs[1..], pos, target, tol)
  }

  /** `next((c for c in xs if _is_within(c, target, tol)), None)`. */
  function FirstWithin<T>(xs: seq<T>, pos: T -> Point, target: Point, tol: int): (m: Option<T>)
    ensures m.Some? <==> HasWithin(xs, pos, target, tol)
    ensures m.Some? ==> InBox(pos(m.value), target, tol)
  {
    var k := FirstIndex(xs, pos, target, tol);
    if k < |xs| then Some(xs[k]) else None
  }

  /** Over a sequence sorted by `key`, the first element in the box has the least key of
      all the elements in the box. */
  lemma FirstWithinLeast<T>(xs: seq<T>, pos: T -> Point, target: Point, tol: int, key: T -> int)
    requires Sorting.SortedBy(xs, key)
    requires FirstWithin(xs, pos, target, tol).Some?
    ensures forall j :: 0 <= j < |xs| && InBox(pos(xs[j]), target, tol) ==>
      key(FirstWithin(xs, pos, target, tol).value) <= key(xs[j])
  {
    var k := FirstIndex(xs, pos, target, tol);
    forall j | 0 <= j < |xs| && InBox(pos(xs[j]), target, tol)
      ensures key(xs[k]) <= key(xs[j])
    {
      assert k <= j;
    }
  }

  /** The `within_clicks` list: the first match of every target that has one, in
      target order; unmatched targets leave no gap. */
  function Within<T>(xs: seq<T>, pos: T -> Point, targets: seq<Point>, tol: int): (w: seq<T>)
    ensures |w| <= |targets|
    ensures |w| == |targets| <==> forall i :: 0 <= i < |targets| ==> HasWithin(xs, pos, targets[i], tol)
    ensures |w| == |targets| ==> forall i :: 0 <= i < |targets| ==> FirstWithin(xs, pos, targets[i], tol) == Some(w[i])
  {
    if |targets| == 0 then []
    else
      var rest := Within(xs, pos, targets[1..], tol);
      assert forall i :: 1 <= i < |targets| ==> targets[1..][i - 1] == targets[i];
      match FirstWithin(xs, pos, targets[0], tol)
      case Some(c) => [c] + rest
      case None => rest
  }

  /** The per-index re-check of the comparer (`_is_within(within[i], clicks[i])`)
      cannot fail once every target was matched: each `within[i]` was chosen by that
      same test against `targets[i]`. */
  lemma RecheckCannotFail<T>(xs: seq<T>, pos: T -> Point, targets: seq<Point>, tol: int)
    requires |Within(xs, pos, targets, tol)| == |targets|
    ensures forall i :: 0 <= i < |targets| ==> InBox(pos(Within(xs, pos, targets, tol)[i]), targets[i], tol)
  {
    var w := Within(xs, pos, targets, tol);
    forall i | 0 <= i < |targets| ensures InBox(pos(w[i]), targets[i], tol) {
      assert FirstWithin(xs, pos, targets[i], tol) == Some(w[i]);
    }
  }

  /** Whether a target has a match depends only on which elements are present, not on
      their order. */
  lemma HasWithinPermutation<T>(a: seq<T>, b: seq<T>, pos: T -> Point, target: Point, tol: int)
    requires multiset(a) == multiset(b)
    ensures HasWithin(a, pos, target, tol) <==> HasWithin(b, pos, target, tol)
  {
    if HasWithin(a, pos, target, tol) {
      var j :| 0 <= j < |a| && InBox(pos(a[j]), target, tol);
      Sorting.SameMembers(a, b, a[j]);
      var k :| 0 <= k < |b| && b[k] == a[j];
    }
    if HasWithin(b, pos, target, tol) {
      var j :| 0 <= j < |b| && InBox(pos(b[j]), target, tol);
      Sorting.SameMembers(a, b, b[j]);
      var k :| 0 <= k < |a| && a[k] == b[j];
    }
  }
}
