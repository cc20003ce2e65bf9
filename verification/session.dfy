/**
 Session duration (`SessionProcessor`, main line and authentication variant): the
 seconds between the earliest and the latest movement. The two variants differ only in
 the timestamp parser, which the model does not distinguish.
 */
module Session {
  import opened Records
  import Sorting

  /** `t` is the latest time of the samples. */
  ghost predicate IsMaxTime(ss: seq<Sample>, t: int) {
    (exists i :: 0 <= i < |ss| && ss[i].t == t) && forall i :: 0 <= i < |ss| ==> ss[i].t <= t
  }

  /** `t` is the earliest time of the samples. */
  ghost predicate IsMinTime(ss: seq<Sample>, t: int) {
    (exists i :: 0 <= i < |ss| && ss[i].t == t) && forall i :: 0 <= i < |ss| ==> ss[i].t >= t
  }

  /** `SessionProcessor.__call__` on the movement list (`[]` when absent): no movements,
      a null entry or an unparseable timestamp give 0; otherwise the last minus the first
      timestamp after sorting, in seconds. */
  function Duration(rs: seq<Record>): (d: real)
    ensures d >= 0.0
    ensures |rs| <= 1 ==> d == 0.0
    ensures !AllParse(rs) ==> d == 0.0
  {
    if |rs| == 0 then 0.0
    else
      match Parse(rs)
      case None => 0.0
      case Some(ss) =>
        var s := SortByTime(ss);
        assert Time(s[0]) <= Time(s[|s| - 1]);
        (s[|s| - 1].t - s[0].t) as real / MicrosPerSecond
  }

  /** The duration is the span from the earliest to the latest timestamp, whatever order
      the movements were recorded in. */
  lemma DurationIsSpan(rs: seq<Record>, lo: int, hi: int)
    requires AllParse(rs) && |rs| > 0
    requires IsMinTime(Parse(rs).value, lo) && IsMaxTime(Parse(rs).value, hi)
    ensures Duration(rs) == (hi - lo) as real / MicrosPerSecond
  {
    var ss := Parse(rs).value;
    var s := SortByTime(ss);
    var n := |s|;
    Sorting.SameMembers(s, ss, s[n - 1]);
    Sorting.SameMembers(s, ss, s[0]);
    var i :| 0 <= i < |ss| && ss[i].t == hi;
    Sorting.SameMembers(s, ss, ss[i]);
    var k :| 0 <= k < n && s[k] == ss[i];
    assert Time(s[k]) <= Time(s[n - 1]);
    var j :| 0 <= j < |ss| && ss[j].t == lo;
    Sorting.SameMembers(s, ss, ss[j]);
    var l :| 0 <= l < n && s[l] == ss[j];
    assert Time(s[0]) <= Time(s[l]);
  }

  /** Permuting the movements leaves the duration unchanged. */
  lemma OrderIndependent(a: seq<Record>, b: seq<Record>)
    requires multiset(a) == multiset(b)
    ensures Duration(a) == Duration(b)
  {
    AllParsePermutation(a, b);
    assert |a| == |b| by {
      assert |multiset(a)| == |multiset(b)|;
    }
    if AllParse(a) && |a| > 0 {
      var sa := Parse(a).value;
      var sb := Parse(b).value;
      forall t | IsMinTime(sa, t) || IsMaxTime(sa, t)
        ensures (IsMinTime(sa, t) ==> IsMinTime(sb, t)) && (IsMaxTime(sa, t) ==> IsMaxTime(sb, t))
      {
        SampleTimesAgree(a, b, t);
      }
      MinMaxExist(sa);
      var lo', hi' :| IsMinTime(sa, lo') && IsMaxTime(sa, hi');
      DurationIsSpan(a, lo', hi');
      DurationIsSpan(b, lo', hi');
    }
  }

  /** Two permutations of readable records have the same sample times. */
  lemma SampleTimesAgree(a: seq<Record>, b: seq<Record>, t: int)
    requires multiset(a) == multiset(b) && AllParse(a) && AllParse(b)
    ensures (exists i :: 0 <= i < |a| && ToSample(a[i]).t == t) <==> (exists i :: 0 <= i < |b| && ToSample(b[i]).t == t)
    ensures (forall i :: 0 <= i < |a| ==> ToSample(a[i]).t <= t) <==> (forall i :: 0 <= i < |b| ==> ToSample(b[i]).t <= t)
    ensures (forall i :: 0 <= i < |a| ==> ToSample(a[i]).t >= t) <==> (forall i :: 0 <= i < |b| ==> ToSample(b[i]).t >= t)
  {
    forall i | 0 <= i < |a| ensures exists k :: 0 <= k < |b| && b[k] == a[i] {
      Sorting.SameMembers(a, b, a[i]);
    }
    forall i | 0 <= i < |b| ensures exists k :: 0 <= k < |a| && a[k] == b[i] {
      Sorting.SameMembers(a, b, b[i]);
    }
  }

  /** A non-empty list of samples has an earliest and a latest time. */
  lemma MinMaxExist(ss: seq<Sample>)
    requires |ss| > 0
    ensures exists lo, hi :: IsMinTime(ss, lo) && IsMaxTime(ss, hi)
  {
    var s := SortByTime(ss);
    var n := |s|;
    Sorting.SameMembers(s, ss, s[0]);
    Sorting.SameMembers(s, ss, s[n - 1]);
    forall i | 0 <= i < |ss| ensures s[0].t <= ss[i].t <= s[n - 1].t {
      Sorting.SameMembers(s, ss, ss[i]);
      var k :| 0 <= k < n && s[k] == ss[i];
      assert Time(s[0]) <= Time(s[k]) <= Time(s[n - 1]);
    }
    assert IsMinTime(ss, s[0].t) && IsMaxTime(ss, s[n - 1].t);
  }
}
