/**
 A score table: the Python dictionary `{name: {"score": …, "weight": …}}` the mouse-event
 analyzers return, kept as a sequence in insertion order. Assigning to a name already
 present replaces its entry in place; a new name is appended.
 */
module ScoreTable {
  import opened Records

  datatype Entry<S> = Entry(name: string, score: S, weight: real)

  type Table<S> = seq<Entry<S>>

  function Names<S>(t: Table<S>): (ns: seq<string>)
    ensures |ns| == |t|
    ensures forall i :: 0 <= i < |t| ==> ns[i] == t[i].name
  {
    if |t| == 0 then [] else [t[0].name] + Names(t[1..])
  }

  /** The position of the entry named `name`, or -1. */
  function IndexOf<S>(t: Table<S>, name: string): (i: int)
    ensures -1 <= i < |t|
    ensures i >= 0 ==> t[i].name == name
    ensures forall j :: 0 <= j < |t| && (i < 0 || j < i) ==> t[j].name != name
  {
    if |t| == 0 then -1
    else if t[0].name == name then 0
    else
      var k := IndexOf(t[1..], name);
      assert forall j :: 1 <= j < |t| ==> t[j] == t[1..][j - 1];
      if k < 0 then -1 else k + 1
  }

  /** Two tables whose entries carry the same names at the same positions find every
      name at the same position. */
  lemma IndexOfSameNames<S, T>(t: Table<S>, u: Table<T>, name: string)
    requires |t| == |u| && forall j :: 0 <= j < |t| ==> t[j].name == u[j].name
    ensures IndexOf(t, name) == IndexOf(u, name)
  {
    var i, k := IndexOf(t, name), IndexOf(u, name);
    if i >= 0 {
      assert u[i].name == name;
    }
    if k >= 0 {
      assert t[k].name == name;
    }
  }

  /** Appending an entry with another name moves no name. */
  lemma IndexOfAppend<S>(t: Table<S>, e: Entry<S>, name: string)
    requires e.name != name
    ensures IndexOf(t + [e], name) == IndexOf(t, name)
  {
    var u := t + [e];
    var i, k := IndexOf(t, name), IndexOf(u, name);
    assert forall j :: 0 <= j < |t| ==> u[j] == t[j];
    if k >= 0 {
      assert k < |t| by {
        assert u[|t|] == e;
      }
      assert t[k].name == name;
    }
    if i >= 0 {
      assert u[i].name == name;
    }
  }

  /** `table[name]`, when present. */
  function Lookup<S>(t: Table<S>, name: string): (r: Option<Entry<S>>)
    ensures r.None? <==> name !in Names(t)
    ensures r.Some? ==> r.value in t && r.value.name == name
  {
    var i := IndexOf(t, name);
    assert name in Names(t) ==> i >= 0 by {
      if name in Names(t) {
        var j :| 0 <= j < |t| && Names(t)[j] == name;
        assert t[j].name == name;
      }
    }
    if i < 0 then None else Some(t[i])
  }

  /** `table[name] = {"score": score, "weight": weight}`. */
  function Put<S>(t: Table<S>, name: string, score: S, weight: real): (r: Table<S>)
    ensures Lookup(r, name) == Some(Entry(name, score, weight))
    ensures forall n :: n != name ==> Lookup(r, n) == Lookup(t, n)
    ensures name in Names(t) ==> |r| == |t| && forall i :: 0 <= i < |t| ==> r[i].name == t[i].name
    ensures name !in Names(t) ==> r == t + [Entry(name, score, weight)]
  {
    var e := Entry(name, score, weight);
    var i := IndexOf(t, name);
    if i < 0 then
      var r := t + [e];
      assert IndexOf(r, name) == |t| by {
        assert r[|t|] == e;
        assert forall j :: 0 <= j < |t| ==> r[j] == t[j];
      }
      assert forall n :: n != name ==> Lookup(r, n) == Lookup(t, n) by {
        forall n | n != name ensures Lookup(r, n) == Lookup(t, n) {
          IndexOfAppend(t, e, n);
          assert forall j :: 0 <= j < |t| ==> r[j] == t[j];
        }
      }
      r
    else
      var r := t[i := e];
      assert forall n :: IndexOf(r, n) == IndexOf(t, n) by {
        forall n ensures IndexOf(r, n) == IndexOf(t, n) {
          IndexOfSameNames(r, t, n);
        }
      }
      r
  }

  /** No name occurs twice. */
  predicate Distinct(ns: seq<string>) {
    forall i, j :: 0 <= i < j < |ns| ==> ns[i] != ns[j]
  }

  /** Building a table by assignment never repeats a name. */
  lemma PutKeepsDistinct<S>(t: Table<S>, name: string, score: S, weight: real)
    requires Distinct(Names(t))
    ensures Distinct(Names(Put(t, name, score, weight)))
  {
    var r := Put(t, name, score, weight);
    var nt, nr := Names(t), Names(r);
    if name !in nt {
      assert forall i :: 0 <= i < |nt| ==> nr[i] == nt[i];
      assert nr[|nt|] == name;
    } else {
      assert forall i :: 0 <= i < |nt| ==> nr[i] == nt[i];
    }
  }

  /** A dictionary literal (or a run of assignments) with these entries, in order: a
      repeated name keeps its first position and its last value. */
  function Build<S>(es: Table<S>): (r: Table<S>)
    ensures |r| <= |es|
  {
    if |es| == 0 then []
    else Put(Build(es[..|es| - 1]), es[|es| - 1].name, es[|es| - 1].score, es[|es| - 1].weight)
  }

  lemma NamesAppend<S>(t: Table<S>, e: Entry<S>)
    ensures Names(t + [e]) == Names(t) + [e.name]
  {
    var l, r := Names(t + [e]), Names(t) + [e.name];
    assert |l| == |r|;
    forall i | 0 <= i < |l| ensures l[i] == r[i] {
      if i < |t| {
        assert (t + [e])[i] == t[i];
      }
    }
  }

  /** The literal has exactly the names of its entries. */
  lemma {:induction false} BuildNames<S>(es: Table<S>)
    ensures forall n :: n in Names(Build(es)) <==> n in Names(es)
  {
    if |es| > 0 {
      var front := es[..|es| - 1];
      var e := es[|es| - 1];
      BuildNames(front);
      assert es == front + [e];
      NamesAppend(front, e);
      var b := Build(front);
      forall n ensures n in Names(Build(es)) <==> n in Names(es) {
        var l := Lookup(Put(b, e.name, e.score, e.weight), n);
        if n != e.name {
          assert l == Lookup(b, n);
        }
      }
    }
  }

  /** With no name repeated, the literal is the list of its entries. */
  lemma {:induction false} BuildDistinct<S>(es: Table<S>)
    requires Distinct(Names(es))
    ensures Build(es) == es
  {
    if |es| > 0 {
      var front := es[..|es| - 1];
      var e := es[|es| - 1];
      assert es == front + [e];
      NamesAppend(front, e);
      var nf := Names(front);
      assert Distinct(nf) by {
        forall i, j | 0 <= i < j < |nf| ensures nf[i] != nf[j] {
          assert Names(es)[i] == nf[i] && Names(es)[j] == nf[j];
        }
      }
      assert e.name !in nf by {
        forall i | 0 <= i < |nf| ensures nf[i] != e.name {
          assert Names(es)[i] == nf[i] && Names(es)[|nf|] == e.name;
        }
      }
      BuildDistinct(front);
    }
  }

  /** In a table without repeated names, every entry is found under its own name. */
  lemma LookupDistinct<S>(t: Table<S>, i: int)
    requires Distinct(Names(t)) && 0 <= i < |t|
    ensures Lookup(t, t[i].name) == Some(t[i])
  {
    var ns, n := Names(t), t[i].name;
    var k := IndexOf(t, n);
    assert k >= 0 && !(i < k) by {
      assert t[i].name == n;
    }
    assert ns[k] == n && ns[i] == n;
    assert Distinct(ns);
    assert k == i;
  }

  /** A name appended to a list without repetitions is new to it. */
  lemma DistinctSnoc(ns: seq<string>, m: string)
    requires Distinct(ns + [m])
    ensures Distinct(ns) && m !in ns
  {
    var l := ns + [m];
    forall i, j | 0 <= i < j < |ns| ensures ns[i] != ns[j] {
      assert l[i] == ns[i] && l[j] == ns[j];
    }
    forall i | 0 <= i < |ns| ensures ns[i] != m {
      assert l[i] == ns[i] && l[|ns|] == m;
    }
  }
}
