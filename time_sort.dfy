/** `files_with_time.sort(key=lambda x: x[1])`: Python's list sort is
    stable, so files with equal time strings keep their listing order.
    Modelled as an insertion sort on the time strings' `<=`. */
module TimeSort {
  import opened Common

  /** A `(filename, time_str)` pair. */
  datatype Entry = Entry(name: string, time: string)

  predicate SortedByTime(es: seq<Entry>) {
    forall i, j :: 0 <= i < j < |es| ==> LexLe(es[i].time, es[j].time)
  }

  /** Puts `x` after every entry whose time is `<=` its own. */
  function InsertByTime(es: seq<Entry>, x: Entry): (r: seq<Entry>)
    ensures multiset(r) == multiset(es) + multiset{x}
    decreases |es|
  {
    if es == [] || LexLe(es[|es| - 1].time, x.time) then es + [x]
    else
      var r := InsertByTime(es[..|es| - 1], x) + [es[|es| - 1]];
      assert es == es[..|es| - 1] + [es[|es| - 1]];
      r
  }

  function SortByTime(es: seq<Entry>): (r: seq<Entry>)
    ensures multiset(r) == multiset(es)
  {
    if es == [] then []
    else
      assert es == es[..|es| - 1] + [es[|es| - 1]];
      InsertByTime(SortByTime(es[..|es| - 1]), es[|es| - 1])
  }

  /** The entries with time `t`, in order. */
  function WithTime(es: seq<Entry>, t: string): (r: seq<Entry>)
    ensures |r| <= |es|
  {
    if es == [] then []
    else WithTime(es[..|es| - 1], t) + (if es[|es| - 1].time == t then [es[|es| - 1]] else [])
  }

  lemma {:induction false} WithTimeAppend(a: seq<Entry>, b: seq<Entry>, t: string)
    ensures WithTime(a + b, t) == WithTime(a, t) + WithTime(b, t)
    decreases |b|
  {
    if b == [] {
      assert a + b == a;
    } else {
      assert (a + b)[..|a + b| - 1] == a + b[..|b| - 1];
      WithTimeAppend(a, b[..|b| - 1], t);
    }
  }

  lemma {:induction false} InsertSorted(es: seq<Entry>, x: Entry)
    requires SortedByTime(es)
    ensures SortedByTime(InsertByTime(es, x))
    decreases |es|
  {
    if es == [] || LexLe(es[|es| - 1].time, x.time) {
      forall i | 0 <= i < |es|
        ensures LexLe(es[i].time, x.time)
      {
        if es != [] {
          LexLeTransitive(es[i].time, es[|es| - 1].time, x.time);
        }
      }
    } else {
      var init, last := es[..|es| - 1], es[|es| - 1];
      InsertSorted(init, x);
      var r := InsertByTime(init, x);
      LexLeTotal(last.time, x.time);
      forall e | e in r
        ensures LexLe(e.time, last.time)
      {
        assert e in multiset(r);
        if e != x {
          assert e in multiset(init);
        }
      }
      forall i | 0 <= i < |r|
        ensures LexLe(r[i].time, last.time)
      {
        assert r[i] in r;
      }
    }
  }

  lemma {:induction false} SortSorted(es: seq<Entry>)
    ensures SortedByTime(SortByTime(es))
  {
    if es != [] {
      SortSorted(es[..|es| - 1]);
      InsertSorted(SortByTime(es[..|es| - 1]), es[|es| - 1]);
    }
  }

  /** Inserting `x` only adds `x` to its own time's entries, at their end. */
  lemma {:induction false} InsertStable(es: seq<Entry>, x: Entry, t: string)
    ensures WithTime(InsertByTime(es, x), t) == WithTime(es, t) + (if x.time == t then [x] else [])
    decreases |es|
  {
    if es == [] || LexLe(es[|es| - 1].time, x.time) {
      WithTimeAppend(es, [x], t);
      assert [x][..0] == [];
    } else {
      var init, last := es[..|es| - 1], es[|es| - 1];
      assert es == init + [last];
      InsertStable(init, x, t);
      // `last` comes strictly after `x`, so it cannot share `x`'s time
      assert last.time != x.time;
      WithTimeSnocOther(InsertByTime(init, x), init, last, x, t);
    }
  }

  /** The step of `InsertStable`: an entry of another time than `x`
      appended to both sides. */
  lemma WithTimeSnocOther(r: seq<Entry>, init: seq<Entry>, last: Entry, x: Entry, t: string)
    requires last.time != x.time
    requires WithTime(r, t) == WithTime(init, t) + (if x.time == t then [x] else [])
    ensures WithTime(r + [last], t) == WithTime(init + [last], t) + (if x.time == t then [x] else [])
  {
    var w := WithTime([last], t);
    WithTimeAppend(init, [last], t);
    WithTimeAppend(r, [last], t);
    assert w == (if last.time == t then [last] else []) by {
      assert [last][..0] == [];
    }
    if x.time != t {
      assert WithTime(init, t) + [] == WithTime(init, t);
    }
  }

  /** The sort is stable: the entries of each time keep their relative order. */
  lemma {:induction false} SortStable(es: seq<Entry>, t: string)
    ensures WithTime(SortByTime(es), t) == WithTime(es, t)
  {
    if es != [] {
      var init, last := es[..|es| - 1], es[|es| - 1];
      SortStable(init, t);
      InsertStable(SortByTime(init), last, t);
    }
  }

  /** `files_with_time[-1]`: an entry of the input whose time no other
      entry exceeds. */
  lemma LastIsLatest(es: seq<Entry>)
    requires es != []
    ensures var s := SortByTime(es); |s| == |es| && s[|s| - 1] in es
    ensures var s := SortByTime(es); forall i :: 0 <= i < |es| ==> LexLe(es[i].time, s[|s| - 1].time)
  {
    var s := SortByTime(es);
    assert |s| == |multiset(s)| == |multiset(es)| == |es|;
    SortSorted(es);
    assert s[|s| - 1] in multiset(s);
    forall i | 0 <= i < |es|
      ensures LexLe(es[i].time, s[|s| - 1].time)
    {
      assert es[i] in multiset(s);
      var k :| 0 <= k < |s| && s[k] == es[i];
      if k < |s| - 1 {
        assert LexLe(s[k].time, s[|s| - 1].time);
      } else {
        assert s[k] == s[|s| - 1];
      }
    }
  }

  /** Of the entries sharing the latest time, the last one listed ends the
      sorted list. */
  lemma LastOfLatestTime(es: seq<Entry>)
    requires es != []
    ensures var s := SortByTime(es); var w := WithTime(es, s[|s| - 1].time);
      w != [] && s[|s| - 1] == w[|w| - 1]
  {
    var s := SortByTime(es);
    LastIsLatest(es);
    var n := |s| - 1;
    var t := s[n].time;
    SortStable(es, t);
    assert WithTime(s, t) == WithTime(s[..n], t) + [s[n]] by {
      assert s == s[..n] + [s[n]];
      WithTimeAppend(s[..n], [s[n]], t);
      assert [s[n]][..0] == [];
    }
  }
}
