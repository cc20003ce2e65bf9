/**
 The recorded session as the scorer sees it: pointer events with integer pixel
 coordinates and an ISO-8601 timestamp, and the scripted actions they are checked
 against.

 A timestamp is kept in two forms: `raw`, the rank of the timestamp string in plain
 string order (one processor sorts by the string itself), and `parsed`, the instant in
 whole microseconds (the resolution of Python's `datetime`), or `None` when the string
 does not parse. A `Record` is one element of an event list; `None` stands for a JSON
 `null` entry.
 */
module Records {
  import Sorting

  datatype Option<T> = None | Some(value: T) {
    function GetOr(default: T): T {
      match this
      case Some(v) => v
      case None => default
    }
  }

  datatype Point = Point(x: int, y: int)

  datatype Stamp = Stamp(raw: int, parsed: Option<int>)

  datatype Event = Event(pos: Point, stamp: Stamp)

  type Record = Option<Event>

  /** An event whose timestamp parsed: `t` is in microseconds. */
  datatype Sample = Sample(pos: Point, t: int)

  /** One step of the action script: `kind` is the action type ("click", "input", ...). */
  datatype Action = Action(id: string, kind: string, location: Point)

  /** Microseconds per second: `timedelta.total_seconds()` divides by this. */
  const MicrosPerSecond: real := 1000000.0

  function Abs(n: int): nat {
    if n < 0 then -n else n
  }

  /** Inclusive per-axis tolerance box: both coordinate differences are at most `tol`. */
  predicate InBox(p: Point, q: Point, tol: int) {
    Abs(p.x - q.x) <= tol && Abs(p.y - q.y) <= tol
  }

  /** The record is present and its timestamp parses. */
  predicate Parses(r: Record) {
    r.Some? && r.value.stamp.parsed.Some?
  }

  predicate AllParse(rs: seq<Record>) {
    forall i :: 0 <= i < |rs| ==> Parses(rs[i])
  }

  function ToSample(r: Record): Sample
    requires Parses(r)
  {
    Sample(r.value.pos, r.value.stamp.parsed.value)
  }

  /** Parses every record of a list, failing (as the source's sort key does by raising)
      as soon as one record is null or carries an unparseable timestamp. */
  function Parse(rs: seq<Record>): (r: Option<seq<Sample>>)
    ensures r.Some? <==> AllParse(rs)
    ensures r.Some? ==> |r.value| == |rs|
    ensures r.Some? ==> forall i :: 0 <= i < |rs| ==> r.value[i] == ToSample(rs[i])
  {
    if |rs| == 0 then Some([])
    else if !Parses(rs[0]) then None
    else
      match Parse(rs[1..])
      case None => None
      case Some(rest) => Some([ToSample(rs[0])] + rest)
  }

  function Time(s: Sample): int {
    s.t
  }

  function SamplePos(s: Sample): Point {
    s.pos
  }

  function SortByTime(ss: seq<Sample>): (r: seq<Sample>)
    ensures Sorting.SortedBy(r, Time)
    ensures multiset(r) == multiset(ss)
    ensures |r| == |ss|
  {
    Sorting.SortBy(ss, Time)
  }

  function Times(ss: seq<Sample>): (ts: seq<int>)
    ensures |ts| == |ss|
    ensures forall i :: 0 <= i < |ss| ==> ts[i] == ss[i].t
  {
    if |ss| == 0 then [] else [ss[0].t] + Times(ss[1..])
  }

  function Positions(ss: seq<Sample>): (ps: seq<Point>)
    ensures |ps| == |ss|
    ensures forall i :: 0 <= i < |ss| ==> ps[i] == ss[i].pos
  {
    if |ss| == 0 then [] else [ss[0].pos] + Positions(ss[1..])
  }

  /** The entries of a list that are not JSON null (`[m for m in ms if m is not None]`). */
  function NonNull(rs: seq<Record>): (r: seq<Record>)
    ensures |r| <= |rs|
    ensures forall i :: 0 <= i < |r| ==> r[i].Some? && r[i] in rs
    ensures forall i :: 0 <= i < |rs| && rs[i].Some? ==> rs[i] in r
    ensures (forall i :: 0 <= i < |rs| ==> rs[i].Some?) ==> r == rs
  {
    if |rs| == 0 then []
    else if rs[0].None? then NonNull(rs[1..])
    else [rs[0]] + NonNull(rs[1..])
  }

  /** The filter keeps order: it distributes over concatenation. */
  lemma {:induction false} NonNullAppend(a: seq<Record>, b: seq<Record>)
    ensures NonNull(a + b) == NonNull(a) + NonNull(b)
  {
    if |a| > 0 {
      assert (a + b)[0] == a[0] && (a + b)[1..] == a[1..] + b;
      NonNullAppend(a[1..], b);
    } else {
      assert a + b == b;
    }
  }

  /** The events of a list with no null entry; `None` as soon as one entry is null (the
      source raises on it). */
  function Present(rs: seq<Record>): (r: Option<seq<Event>>)
    ensures r.Some? <==> forall i :: 0 <= i < |rs| ==> rs[i].Some?
    ensures r.Some? ==> |r.value| == |rs| && forall i :: 0 <= i < |rs| ==> rs[i] == Some(r.value[i])
  {
    if |rs| == 0 then Some([])
    else if rs[0].None? then None
    else
      match Present(rs[1..])
      case None => None
      case Some(rest) => Some([rs[0].value] + rest)
  }

  /** A list with the same elements as `a` parses exactly when `a` does. */
  lemma AllParsePermutation(a: seq<Record>, b: seq<Record>)
    requires multiset(a) == multiset(b)
    ensures AllParse(a) <==> AllParse(b)
  {
    if AllParse(a) {
      forall i | 0 <= i < |b| ensures Parses(b[i]) {
        Sorting.SameMembers(a, b, b[i]);
        var j :| 0 <= j < |a| && a[j] == b[i];
      }
    }
    if AllParse(b) {
      forall i | 0 <= i < |a| ensures Parses(a[i]) {
        Sorting.SameMembers(a, b, a[i]);
        var j :| 0 <= j < |b| && b[j] == a[i];
      }
    }
  }
}
